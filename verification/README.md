# A verified model of timecraft's core

timecraft runs WebAssembly modules in a sandbox, records every system call they make, and lets
them schedule tasks on one another. This project models the parts of it where the logic is
intricate and proves what those parts are for:

- **Overlay file system** (`OciTree`, `Overlay`, `Image`, `Listing`, `ImageDir`, `LayerRefs`). A container image
  is a stack of changesets. The image itself is defined the simple way, by applying the changesets
  one by one (OCI image-spec, layer.md, "Applying Changesets" and "Whiteouts"). The overlay instead
  keeps, per open directory, the list of layer directories still visible, and cuts it short lazily.
  Opening, walking, resolving links and listing are proved to give what the flattened image gives.
  The reference counts behind the handles are proved exact in every interleaving.
- **Path resolution** (`Paths`, `Resolve`, `Vfs`). The loop that works on the unwalked string is
  proved, for any callback, equal to component-by-component resolution clamped at the root with at
  most ten links followed. Every handle that opening yields lies under its root, and without links
  its names are those of the path, ".." taking away the one before it.
- **Directory reading** (`Dirents`, `ReadDir`). Entries in a byte buffer, the paging that re-emits
  a truncated entry, and the restartable cookie protocol on top of it, down to the names and types
  that the guest is told of a merged directory.
- **Descriptor ownership** (`SocketFD`). A reference count and a descriptor in one 64-bit word,
  changed by compare-and-swap from any number of threads: when it is closed, and what each call has
  done when it returns.
- **Task scheduler** (`Scheduler`, `SchedulerOutcomes`, `ModuleKey`). Worker threads, single-flight
  process start, and processes that die at any moment, as a transition system. Over every history,
  what becomes of a task is traced back to the steps that caused it.
- **Log** (`Bytes`, `LogFormat`, `LogWriter`, `LogReader`, `LogRoundTrip`, `LogBatches`) and
  **system call codec** (`Codec`, `Calls`, `IOVecs`). What was written reads back, wherever it was
  flushed; every value that the arguments of a call can have is decoded to itself; what decodes
  re-encodes to itself exactly when no bit was dropped.
- **Addresses** (`Bitset`, `Ip`, `IpPool`) and the **virtual network** (`LocalNetwork`,
  `NetworkRuns`). Allocation, and routes that stay in step with it.

`Basics` holds what the modules share.

Code that updates things in place is modelled by classes and loops proved against specification
functions; protocols between threads are step relations whose every run is quantified over.
Integer widths are written out where they matter.

## What the code does not quite do

Where a property one would expect fails, the code is kept as it is, a lemma exhibits the failure, and
the exact condition is proved.

- A marker such as `.wh.x` can itself be opened through the overlay, although it is not part of the
  image. An overlay open agrees with the image on every stack exactly for names that are not
  markers (`Overlay.OrdinaryNamesExactly`), and a path, on every stack whose visible links spell
  ordinary names, exactly when it holds no marker (`Image.OrdinaryPathsExactly`).
- A layer that holds both `x` and `.wh.x` shows `x` to lookup; the listing shows it only if `x` was
  read before its marker (`Listing.WhiteoutBesideEntry`). A whiteout of a marker, of the opaque one
  too, makes the listing pass over that marker in layers below and show what it hides
  (`Listing.WhiteoutOfWhiteout`). For every stack, the listing is the image exactly when neither
  happens to any name (`Listing.ListingIsImageExactly`).
- A trailing slash asks for a directory, and then a link in last position is refused rather than
  followed: `link/` is ENOTDIR even when the link leads to a directory (`Image.LinkToDirectory`).
  Resolution follows such links as open with O_DIRECTORY does exactly when no directory is asked for,
  or links are not to be followed, or there is none in last position, or it leads to something that
  is not a directory (`Resolve.FollowsExactly`).
- The count in a `socketFD` wraps after 2^32 holders; every run is safe exactly when there are at
  most 2^32 threads (`SocketFD.SafeExactly`).
- A directory entry larger than the 8192-byte buffer is re-emitted truncated for ever; a page
  advances exactly when its first entry fits (`ReadDir.PageAdvancesExactly`), and otherwise the loop
  comes back to where it was (`ReadDir.WasiDir.RefillInVain`).
- Decoders read 32 bits and convert to types of 8 or 16, so a record with other bits set decodes to
  the same call (`Calls.DroppedBit`). A record re-encodes to itself exactly when the dropped bits are
  zero (`Calls.CallCanonical`).
- `decodeBytes` compares the length of the remaining buffer in 32 bits, so a byte string can fail to
  read back when 4 GiB or more follow (`Codec.BlobRoundTripExactly`). `encodeIOVecsPrefix` sums
  lengths and cuts the sum to 32 bits in one loop and the lengths in another, so the count and the
  vectors can disagree (`IOVecs.SumWraps`); they are right exactly when neither wraps at the last
  vector needed (`IOVecs.CountExactly`, `IOVecs.WriteExactly`). A read of 2^31 bytes or more is
  recorded as if nothing had been read (`IOVecs.RecordedExactly`).
- Bytes of a batch that are refused for their checksum are returned without an error by the next
  call when the batch is not compressed; so is what a failed decompression left. The next call
  succeeds exactly in these cases, when the header promises any bytes (`LogReader.RecordBatch.ReadTwice`).
- `ModuleSpec.Key` is documented to identify the specification uniquely
  (internal/timecraft/module.go:61). Specifications with equal keys are the same exactly when they
  agree on what the key leaves out (`ModuleKey.KeyIdentifiesExactly`, `ModuleKey.KeyIsShared`).
- Returning an address that was not obtained is documented to panic (internal/ipam/ipam.go:12-13). It
  does, whatever else is out, exactly when the address is not taken for another one of the network
  (`IpPool.GivePanicsExactly`). That never happens to IPv4 addresses. An IPv6 address is taken for the
  first one from the base on that has its lower half, or its lower half less one if its upper half is
  below that of the base (`IpPool.MeantIs`, `IpPool.GiveTakenForAnother`).
- A pool never reports exhaustion exactly when its prefix length is 0 (`IpPool.NeverExhaustedExactly`).
- Subtracting IPv6 addresses undoes adding exactly when the sum stays in the address space
  (`Ip.SubUndoesAdd6`).
- A network with overlapping pools can send one namespace's address to another, and a creation that
  fails part-way can remove another namespace's route. However many namespaces may be attached at a
  time, routes agree in every run exactly when the pools are separated (`NetworkRuns.RoutesAgreeExactly`).
- Seeking to a record offset that ends a batch returns the batch before it (`LogBatches.SeekFindsExactly`).

## Model

| member | source | states |
|---|---|---|
| `OciTree.FlattenReversed` | internal/sandbox/ocifs/ocifs.go:32-42 | the stack listed uppermost first denotes the image built by applying the changesets base first |
| `OciTree.FlattenUnmarked` | internal/sandbox/ocifs/file.go:12-15 | no marker name is left anywhere in a flattened image |
| `Overlay.MergeIsFlattened` | internal/sandbox/ocifs/file.go:79-160 | the layer nodes kept under an ordinary name are none exactly when the image lacks the name, and otherwise denote the image's node, whole subtree included |
| `Overlay.OpenFile` | internal/sandbox/ocifs/file.go:79-176 | the loop over layers, with its early exits, gives the same error as, or a handle for the same node as, opening the name in the flattened image |
| `Overlay.OpenAgrees` | internal/sandbox/ocifs/file.go:79-160 | the same for the specification of openFile, and the new handle is again a list of directories or a single node |
| `Overlay.WalkAgrees` | internal/sandbox/ocifs/file.go:79-185 | for every stack and path of ordinary names, opening component by component reaches exactly the image's node at that path |
| `Overlay.NodeAnswers` | internal/sandbox/ocifs/file.go:79-239 | what an image answers to stat, readlink and open for each kind of node and each error |
| `Overlay.OrdinaryNamesExactly` | internal/sandbox/ocifs/file.go:79-176 | a name is opened as in the image on every stack if and only if it is not a marker name |
| `Overlay.Stat` | internal/sandbox/ocifs/file.go:187-212 | lstat through the layers answers what lstat in the image answers, errors included |
| `Overlay.Readlink` | internal/sandbox/ocifs/file.go:214-239 | readlink through the layers answers what readlink in the image answers, errors included |
| `Overlay.New` | internal/sandbox/ocifs/ocifs.go:32-42 | the layers are kept in reverse order |
| `Overlay.OpenRoot` | internal/sandbox/ocifs/ocifs.go:57-81 | fails on no layers or on an error other than a missing root, and otherwise holds the roots that exist, in order |
| `Overlay.Mount` | internal/sandbox/ocifs/ocifs.go:32-81 | the root handle stands for the image of the layers applied base first |
| `Image.LookAgrees` | internal/sandbox/ocifs/file.go:79-239 | looking up an ordinary name in a handle gives the kind, link target or node that the image has |
| `Image.LookOpens` | internal/sandbox/ocifs/file.go:79-160 | opening a name through that lookup is the overlay's openFile |
| `Image.ResolvedAgrees` | internal/sandbox/ocifs/file.go:178-185 | unless it comes to a marker name, resolving components, following links, gives the same error or a handle on the same chain of names and nodes as in the image |
| `Image.OpenInStack` | internal/sandbox/ocifs/file.go:178-185 | opening a path string from the root of any stack is opening it in the flattened image, unless that comes to a marker name |
| `Image.OrdinaryPathsExactly` | internal/sandbox/ocifs/file.go:79-185 | a path resolves as in the image on every stack whose visible links spell ordinary names if and only if it holds no marker name |
| `Image.LinkToDirectory` | internal/sandbox/fs.go:550-562 | a tree on which "d/" opens and "l/", a link to the same directory, does not |
| `Listing.Init` | internal/sandbox/ocifs/dir.go:41-96 | the nested loops with their set of names collect the specified merged listing |
| `Listing.ListingOfImage` | internal/sandbox/ocifs/dir.go:41-96 | for every stack, the listing holds each name at most once; of the image's children all but the shadowed ones, with the kind that lookup reports; and besides them exactly the names exposed by a marker passed over |
| `Listing.ListingIsImageExactly` | internal/sandbox/ocifs/dir.go:41-96 | the listing is the image's directory if and only if no name is shadowed or exposed; so always when no layer holds a name beside its whiteout and no marker has a whiteout in its layer or above |
| `Listing.WhiteoutBesideEntry` | internal/sandbox/ocifs/dir.go:61-88 | for every ordinary name, a layer that lists its whiteout first hides it from the listing while lookup finds it |
| `Listing.WhiteoutOfWhiteout` | internal/sandbox/ocifs/dir.go:61-88 | for every ordinary name and its whiteout or the opaque marker, a stack on which a whiteout of that marker makes the listing show a name that the image lacks |
| `LayerRefs.StepKeepsInv` | internal/sandbox/ocifs/layers.go:37-70 | every step of every call keeps counts, parent links and pending closes consistent |
| `LayerRefs.RunKeepsInv` | internal/sandbox/ocifs/layers.go:37-70 | so does every run |
| `LayerRefs.CountsAreExact` | internal/sandbox/ocifs/layers.go:43-64 | in every state a count equals open handles plus calls and openings in flight plus layer sets that still refer to it |
| `LayerRefs.ParentAlive` | internal/sandbox/ocifs/file.go:147-159 | a layer set with references keeps its parent referenced |
| `LayerRefs.OpenHandlesKeepTheirChain` | internal/sandbox/ocifs/file.go:38-77 | no files are closed or about to be closed on the parent chain of an open handle or of a call in flight |
| `LayerRefs.ClosedOnce` | internal/sandbox/ocifs/layers.go:47-70 | files are closed at most once, and exactly once for every layer set up to the root when all handles are closed and all calls returned |
| `LayerRefs.TargetIs` | internal/sandbox/ocifs/file.go:55-77 | openSelf opens the layer set itself, openParent the one above it, openRoot the one at the end of its chain |
| `LayerRefs.GoesOn` | internal/sandbox/ocifs/layers.go:43-70 | in every state of every run each goroutine can take its next step, and each open handle can be entered or closed |
| `LayerRefs.GetsDone` | internal/sandbox/ocifs/layers.go:43-70 | from every consistent state steps of one goroutine lead to it being idle, closing what nobody refers to any more up to the root |
| `Paths.TrimLeadingSlash` | internal/sandbox/fspath/fspath.go:134-140 | the loop removes the leading slashes and no more |
| `Paths.IndexSlash` | internal/sandbox/fspath/fspath.go:109-116 | the index after the first component, or -1 when the path is one component |
| `Paths.Walk` | internal/sandbox/fspath/fspath.go:119-128 | splits a relative path into its first component and a path that spells the others, an absolute one into the root and the rest |
| `Paths.Depth` | internal/sandbox/fspath/fspath.go:8-29 | the number of names left after ".." has removed the one before it, never below zero |
| `Paths.IsRoot` | internal/sandbox/fspath/fspath.go:158-179 | true exactly for absolute paths made of "." and ".." only |
| `Paths.AppendClean` | internal/sandbox/fspath/fspath.go:56-104 | appends the cleaned path: its components other than "." with single slashes |
| `Paths.CleanComponents` | internal/sandbox/fspath/fspath.go:48-104 | cleaning keeps absoluteness, the components other than ".", and a trailing slash |
| `Paths.CleanIdempotent` | internal/sandbox/fspath/fspath.go:48-104 | cleaning twice is cleaning once |
| `Paths.CleanKeepsDepth` | internal/sandbox/fspath/fspath.go:8-104 | cleaning keeps the depth |
| `Paths.CompsJoin` | internal/sandbox/fspath/fspath.go:33-46 | the components of two paths joined by a slash are those of the first, then those of the second |
| `Resolve.ResolvePath` | internal/sandbox/fs.go:907-1002 | for any callback that says ELOOP only for links, the loop ends, and gives component-by-component resolution clamped at the root with at most ten links followed |
| `Resolve.LeafSeesComponents` | internal/sandbox/fs.go:958-964 | what the callback says of anything but a single component does not matter |
| `Resolve.FileOpen` | internal/sandbox/fs.go:537-562 | opening any string, empty and root paths included, gives that resolution, a trailing slash asking for a directory |
| `Resolve.OpenWalked` | internal/sandbox/fs.go:537-562 | with the callback of FileOpen the resolution is the one that opens |
| `Resolve.FileStat` | internal/sandbox/fs.go:579-589 | stat of any string is that resolution with the callback's lstat, links followed unless asked for themselves |
| `Resolve.StatIsOpened` | internal/sandbox/fs.go:579-589 | when lstat answers as lookup does, stat gives the node that opening reaches, with the same errors, or the link that opening without following refuses |
| `Resolve.FileReadlink` | internal/sandbox/fs.go:604-608 | readlink of any string is that resolution with the callback's readlink, the last link not followed |
| `Resolve.ReadlinkIsStat` | internal/sandbox/fs.go:604-608 | readlink is the same resolution as stat without following: its errors, EINVAL for what is not a link, and otherwise the target of the link found |
| `Resolve.FollowsExactly` | internal/sandbox/fs.go:550-562 | resolution treats a link in last position as open does if and only if no directory is asked for, links are not followed, there is no such link, or what it leads to is not a directory |
| `Resolve.OpenComponent` | internal/sandbox/fs.go:986-1000 | reopening one component as a directory without following it is one openSelf, openParent or openFile |
| `Resolve.DotsStay` | internal/sandbox/fs.go:537-562 | "." and ".." at the root stay there, so the shortcut for root paths agrees with resolution |
| `Resolve.ResolvedStaysInside` | internal/sandbox/dirfs_unix.go:115-152 | whatever the components and links, the handle reached has the same root and its chain spells proper names, each found in the node before it |
| `Resolve.OpenStaysInside` | internal/sandbox/fs.go:537-562 | the same for every path string |
| `Resolve.ParentUndoesPush` | internal/sandbox/dirfs_unix.go:115-152 | the parent of what was opened in a directory is that directory; the root is its own parent |
| `Resolve.ResolvedNames` | internal/sandbox/fs.go:907-1002 | where no link is followed, the names of the handle are those of the start followed by the components, each ".." taking away the name before it |
| `Resolve.SpelledUnique` | internal/sandbox/dirfs_unix.go:115-152 | two handles under one root whose chains have the same names are the same handle |
| `Resolve.OpenedNames` | internal/sandbox/fs.go:537-562 | so opening a path without links gives the one handle with those names, counted from the root when the path is absolute, and then as many as the depth of the path |
| `Resolve.StackedLength` | internal/sandbox/fspath/fspath.go:8-29 | the depth of a path is the number of names left on that stack |
| `Resolve.TenLinks` | internal/sandbox/fs.go:930-935 | a chain of links is followed to its end if and only if it has at most ten |
| `Resolve.MirrorResolves` | internal/sandbox/fs.go:907-1002 | two file systems whose lookups agree on all but avoided names resolve alike unless resolution comes to such a name |
| `Dirents.WriteDirent` | internal/sandbox/syscall_unix.go:513-545 | writes header, name and null byte, as far as the buffer has room, and leaves the rest of it alone |
| `Dirents.ReadStored` | internal/sandbox/syscall_unix.go:461-545 | a written entry, followed by anything, reads back |
| `Dirents.ReadTruncated` | internal/sandbox/syscall_unix.go:461-511 | a truncated entry is always recognised as too short |
| `Dirents.ReadsOne` | internal/sandbox/syscall_unix.go:461-511 | for any bytes, reading is too short exactly when they end before the size announced or the header; otherwise what follows that size does not matter |
| `Dirents.Dirbuf.ReadDirent` | internal/sandbox/ocifs/dir.go:106-131 | a page holds the entries from the current one on, whole as far as they fit, and the position moves to the first that is not whole |
| `Dirents.Dirbuf.Reset` | internal/sandbox/ocifs/dir.go:98-104 | the next page starts at the first entry |
| `ReadDir.PageFront` | internal/sandbox/wasi.go:473-498 | the first entry of a page reads back whole and a page follows it, or it reads as too short |
| `ReadDir.PageAdvancesExactly` | internal/sandbox/wasi.go:473-498 | a page moves on if and only if its first entry fits in the buffer |
| `ReadDir.WasiDir.RefillInVain` | internal/sandbox/wasi.go:478-500 | with a larger one next, a turn of the loop reads bytes, delivers nothing and leaves the directory where it was |
| `ReadDir.WasiDir.Locate` | internal/sandbox/wasi.go:478-500 | brings a whole entry to the current offset unless the directory is at its end, and does not touch the buffer once entries were delivered |
| `ReadDir.CodesTellTypes` | internal/sandbox/wasi.go:502-520 | for each mode of a file, the code stored with its entry leads to the type that the guest should be told |
| `ReadDir.WasiDir.Show` | internal/sandbox/wasi.go:502-531 | the delivered entry has the index, inode and name of the entry at the cookie, and the type that belongs to its mode |
| `ReadDir.WasiDir.Deliver` | internal/sandbox/wasi.go:502-543 | one turn of the loop adds the next entry of the slice or passes over one before the cookie; it takes the entry out of the byte budget and ends the call exactly when the budget is used up |
| `ReadDir.WasiDir.FDReadDir` | internal/sandbox/wasi.go:454-544 | for every history of calls, a call with cookie k gives entries k, k+1, ... with Next = index + 1, their types, and names intact in the buffer at return; all but the last leave some of the byte budget, and it stops before all slots are filled only when the budget is used up, no whole entry is left in the buffer, or the directory is at its end or closed; it returns when no entry up to k is larger than the buffer |
| `ReadDir.WasiDir.FDCloseDir` | internal/sandbox/wasi.go:449-452 | the directory is closed |
| `ReadDir.ListFrom` | internal/sandbox/wasi.go:454-544 | one call continues the list of names, types and inode numbers where the last one ended, by at least one while any are left |
| `ReadDir.ReadAll` | internal/sandbox/wasi.go:454-544 | calls with any slots and byte budgets list every entry once, in order, with the type of its mode |
| `ImageDir.ListStack` | internal/sandbox/wasi.go:454-544 | merging the layers' listings, paging them and reading with any slots and byte budgets gives the children of the flattened directory, each once, with its name and the type of its node |
| `SocketFD.WordBits` | internal/sandbox/socket.go:305-353 | the shifts and masks are additions on the 64-bit word |
| `SocketFD.WordArithmetic` | internal/sandbox/socket.go:305-353 | acquire, release and close of a word are those additions, with wrap-around |
| `SocketFD.DescriptorIs` | internal/sandbox/socket.go:289-303 | the word is detached exactly when the int32 in its lower half is negative, for every int32 |
| `SocketFD.StepKeepsInv` | internal/sandbox/socket.go:289-353 | every load, compare-and-swap or closeFD step keeps: count equals holders modulo 2^32, and after detaching exactly one close made or pending once there are no holders |
| `SocketFD.RunKeepsInv` | internal/sandbox/socket.go:289-353 | every interleaving keeps it |
| `SocketFD.RunIsSafe` | internal/sandbox/socket.go:289-353 | the descriptor is closed at most once, never while held, and exactly once when closed and all calls returned |
| `SocketFD.NoAcquireAfterClose` | internal/sandbox/socket.go:305-319 | once closed it stays closed and the holders only become fewer |
| `SocketFD.HeldStaysOpen` | internal/sandbox/socket.go:321-353 | a holder that does not release keeps the descriptor open |
| `SocketFD.StepReturns` | internal/sandbox/socket.go:305-353 | a call tries again or returns: acquire with a reference, or empty-handed only if detached; release with one reference less; close only with the descriptor detached; whoever leaves a detached word without references goes on to close it |
| `SocketFD.RunReturns` | internal/sandbox/socket.go:305-353 | every step of every run is such a step of one thread |
| `SocketFD.AfterClose` | internal/sandbox/socket.go:336-353 | after any close has returned the descriptor is detached for ever, nobody acquires it, and once all calls have returned it was closed exactly once |
| `SocketFD.TooManyThreads` | internal/sandbox/socket.go:305-353 | with more than 2^32 threads some run closes the descriptor under its holders |
| `SocketFD.SafeExactly` | internal/sandbox/socket.go:289-353 | all runs are safe if and only if there are at most 2^32 threads |
| `ModuleKey.Key` | internal/timecraft/module.go:61-78 | the loops build the length-prefixed key |
| `ModuleKey.KeyInjective` | internal/timecraft/module.go:61-78 | keys are equal if and only if path, arguments and environment are, for all strings |
| `ModuleKey.KeyIdentifiesExactly` | internal/timecraft/module.go:60-78 | specifications with equal keys are the same if and only if they agree on what the key leaves out |
| `ModuleKey.KeyIsShared` | internal/timecraft/module.go:60-78 | every specification shares its key with a different one |
| `Scheduler.StepKeepsInv` | internal/timecraft/task.go:121-319 | every step keeps: one leader per key, every live process recorded or with its leader, tasks with one worker, groups within their tasks |
| `Scheduler.RunKeepsInv` | internal/timecraft/task.go:121-319 | every run keeps it |
| `Scheduler.OneLiveProcessPerModule` | internal/timecraft/task.go:197-247 | at most one process started for a key is alive at a time |
| `Scheduler.TasksRunOnTheirModule` | internal/timecraft/task.go:197-247 | a task that reached Executing carries a process started for its own path, arguments and environment |
| `Scheduler.TasksMoveForward` | internal/timecraft/task.go:197-319 | a task only moves forward through its states and ends once |
| `Scheduler.ReportedOnce` | internal/timecraft/task.go:302-319 | at most one completion notice, and only for a finished task |
| `Scheduler.BoundedConcurrency` | internal/timecraft/task.go:169-206 | at most threadCount tasks are between dequeue and completion |
| `Scheduler.GroupsAreIsolated` | internal/timecraft/task.go:362-406 | a group looks up and discards only tasks submitted through it |
| `SchedulerOutcomes.RunHasHistory` | internal/timecraft/task.go:121-319 | every run has a history of the steps that led through it |
| `SchedulerOutcomes.EndsAsDecided` | internal/timecraft/task.go:197-319 | a finished task succeeded if and only if its process answered, and failed if and only if it had expired, its flight gave no process, or the exchange failed; never both; and a task that succeeded has a process id |
| `SchedulerOutcomes.RanBefore` | internal/timecraft/task.go:197-319 | a task whose process answered was Executing then, with the process id that it keeps |
| `SchedulerOutcomes.ProcessesAreFound` | internal/timecraft/task.go:208-247 | the process of a task was seen alive by the leader of a flight that the task joined, and a task goes without one only if that leader could not start one or did not find the one started |
| `SchedulerOutcomes.Alive` | internal/timecraft/task.go:213-247 | the processes alive are those that started and did not die, and no id starts twice |
| `SchedulerOutcomes.NoticesAreDelivered` | internal/timecraft/task.go:302-319 | there is one notice for a task that asked for it and whose worker delivered it, and none for any other |
| `SchedulerOutcomes.Registered` | internal/timecraft/task.go:121-166 | tasks keep what they were submitted with, and can be looked up if and only if they were not discarded |
| `SchedulerOutcomes.GroupFinds` | internal/timecraft/task.go:362-406 | a group finds a recorded task while it is registered and no longer once discarded, and other tasks and groups are not affected |
| `SchedulerOutcomes.NothingIsStuck` | internal/timecraft/task.go:184-247 | at every point each worker with a task can go on, whatever the chances, or the leader of its flight can; a free worker can take any waiting task |
| `LogFormat.EntryRoundTrip` | internal/timemachine/record.go:85-95 | a stored record reads back |
| `LogFormat.HeaderRoundTrip` | internal/timemachine/record_batch.go:261-287 | a batch header frame reads back |
| `LogFormat.HeaderTells` | internal/timemachine/record_batch.go:261-287 | a batch header has the times of the first and the last record, their number, the sizes before and after compression, and the checksum of the bytes written |
| `LogWriter.RecordBuilder.Reset` | internal/timemachine/record.go:30-41 | an empty record relative to a start time |
| `LogWriter.RecordBuilder.SetTimestamp` | internal/timemachine/record.go:44-49 | sets the time since the start, saturated to 64 bits, and nothing else |
| `LogWriter.SubNearest` | internal/timemachine/record.go:44-49 | no difference that 64 bits can hold is nearer to the true one |
| `LogWriter.RecordBuilder.SetFunctionID` | internal/timemachine/record.go:52-57 | sets the low 32 bits of the id, and nothing else |
| `LogWriter.RecordBuilder.SetFunctionCall` | internal/timemachine/record.go:63-68 | sets the call, and nothing else |
| `LogWriter.RecordBuilder.Bytes` | internal/timemachine/record.go:71-95 | the encoding of the record, also when asked for again |
| `LogWriter.RecordBatchBuilder.Reset` | internal/timemachine/record_batch.go:192-209 | an empty batch at an offset |
| `LogWriter.RecordBatchBuilder.AddRecord` | internal/timemachine/record_batch.go:215-225 | the batch gains this record at its end; first and last times follow |
| `LogWriter.RecordBatchBuilder.Build` | internal/timemachine/record_batch.go:261-287 | header and payload together are the encoding of the batch |
| `LogWriter.RecordBatchBuilder.Write` | internal/timemachine/record_batch.go:248-259 | appends the encoding of the batch to the output, built before or not |
| `LogWriter.RecordBatchBuilder.Bytes` | internal/timemachine/record_batch.go:233-244 | the encoding of the batch, also when asked for again |
| `LogWriter.LogRecordWriter.WriteRecord` | internal/timemachine/log.go:300-307 | one more record is pending, or the batch that it fills is in the log |
| `LogWriter.LogRecordWriter.Flush` | internal/timemachine/log.go:310-321 | the pending records are in the log as one batch, none if there are none |
| `LogWriter.BatchedKeeps` | internal/timemachine/log.go:295-321 | without flushes in between, batching loses and moves no record; every full batch has the batch size and fewer are pending |
| `LogWriter.BatchedIsPerformed` | internal/timemachine/log.go:300-307 | that is what the writer does when only records are written |
| `LogWriter.PerformedKeeps` | internal/timemachine/log.go:295-321 | wherever it is flushed, no record is lost or moved, and batches hold at least one record and at most the batch size |
| `LogWriter.FinalBatchesKeep` | internal/timemachine/log.go:295-321 | after a last flush the batches hold the records in order with offsets that follow each other from zero |
| `LogReader.RecordBatch.Reset` | internal/timemachine/record_batch.go:37-52 | the header read, nothing of the records, all of them ahead |
| `LogReader.RecordBatch.ReadRecords` | internal/timemachine/record_batch.go:132-169 | loads and decompresses, conserves position plus bytes left, says which bytes explain each status, and what the buffer keeps after a failure: the bytes of a plain batch, or the space for a failed decompression |
| `LogReader.RecordBatch.ReadTwice` | internal/timemachine/record_batch.go:132-169 | after a failure the next call succeeds if and only if the header promises bytes and the batch is plain or could not be decompressed; of a plain batch with a wrong checksum it returns the refused bytes |
| `LogReader.CutReads` | internal/timemachine/record_batch.go:106-128 | with the 32-bit offsets of the source, the records are cut out one by one and then the section ends |
| `LogReader.CutIs` | internal/timemachine/record_batch.go:106-128 | for any bytes and offset below 2^32 - 4, the 32-bit sums decide as unbounded ones would; a size that reaches into its own four bytes is let through and panics |
| `LogReader.RecordBatch.Read` | internal/timemachine/record_batch.go:101-130 | fills the caller's slots with the next records of the batch, with offsets and times, as many as there are |
| `LogReader.ReadFrame` | internal/timemachine/log.go:106-149 | the frame at the position, or the error for a short, oversized or truncated one |
| `LogReader.FrameSizes` | internal/timemachine/log.go:106-149 | which announced sizes are refused as too large, which panic, and which are read |
| `LogReader.LogReader.ReadRecordBatch` | internal/timemachine/log.go:75-104 | the first batch ahead whose end is not before the wanted offset; nextByteOffset is the start of the next frame |
| `LogReader.LogReader.Seek` | internal/timemachine/log.go:52-70 | the offset asked for, clamped or refused, and a restart exactly when it lies before the end of the last batch |
| `LogReader.SeekTargets` | internal/timemachine/log.go:48-70 | offsets count from the start, the current one, or back from the largest there is; only those before the start are refused, and larger ones lead to the largest |
| `LogBatches.ReadHeaders` | internal/timemachine/log.go:75-104 | for any choice of what is read of each batch, the headers come in order and nextByteOffset is the next frame |
| `LogBatches.SeekFindsExactly` | internal/timemachine/log.go:48-104 | after a seek the batch returned holds the offset if and only if no batch from there on ends at it |
| `LogRoundTrip.LogRecordReader.Read` | internal/timemachine/log.go:178-213 | the next records of the log across batches, at least one into a buffer with room, and the end only when all were read |
| `LogRoundTrip.ReadAll` | internal/timemachine/log.go:178-213 | reads with any buffer lengths give the records in order, then the end |
| `LogRoundTrip.WriteThenRead` | internal/timemachine/log.go:75-321 | for all calls, flushes at any points, batch sizes, compressions and buffer lengths, writing, flushing and reading gives the calls in order numbered from zero, then the end |
| `LogRoundTrip.ExpectedIsExact` | internal/timemachine/record.go:44-57 | a record equals its call if and only if its time is within 64 bits of the start and its id has 32 bits |
| `Codec.NumRoundTrip` | internal/timemachine/wasicall/codec.go:1205-1234 | numbers decode to themselves and exactly what follows |
| `Codec.NumOnWire` | internal/timemachine/wasicall/codec.go:1205-1234 | numbers take four or eight bytes, byte i being the digit of weight 256^i, for negative ones too |
| `Codec.Failures` | internal/timemachine/wasicall/codec.go:1205-1262 | numbers fail to decode exactly when bytes are missing, and a short buffer is told from an address of the wrong length and from an unknown tag |
| `Codec.BlobRoundTrip` | internal/timemachine/wasicall/codec.go:1236-1262 | byte strings decode to themselves and exactly what follows |
| `Codec.BlobRoundTripExactly` | internal/timemachine/wasicall/codec.go:1236-1250 | they do so if and only if the length has 32 bits and the remaining length, cut to 32 bits, reaches it |
| `Codec.RoundTrip` | internal/timemachine/wasicall/codec.go:1205-2078 | for every layout of numbers, strings, nested vectors, fields and tagged unions, decoding an encoding and anything after it gives the value and that rest |
| `Codec.Canonical` | internal/timemachine/wasicall/codec.go:1205-2078 | what decodes has, encoded again, the same length, and is the same bytes if and only if the bits that narrow numbers drop are zero |
| `Codec.Extends` | internal/timemachine/wasicall/codec.go:1205-2078 | bytes that decode still decode to the same value when more follow |
| `Codec.CutFails` | internal/timemachine/wasicall/codec.go:1205-2078 | no proper prefix of bytes that decode to the last decodes |
| `Codec.TruncatedFails` | internal/timemachine/wasicall/codec.go:1205-2078 | no proper prefix of an encoding decodes |
| `Codec.AppendVector` | internal/timemachine/wasicall/codec.go:1264-1297 | the loop appends the vector's encoding |
| `Codec.ReadVector` | internal/timemachine/wasicall/codec.go:1272-1342 | the loop decodes the vector, whatever slice it is given to reuse |
| `Calls.OrdersAgree` | internal/timemachine/wasicall/codec.go:26-1203 | for each of the 57 calls, the decoder takes the fields in the order and kinds that the encoder appends |
| `Calls.LayoutHolds` | internal/timemachine/wasicall/codec.go:1205-2078 | the layout of each kind of argument holds exactly the values of the kind, given by a table of their widths, signs, lengths and alternatives |
| `Calls.CallFitsExactly` | internal/timemachine/wasicall/codec.go:26-1203 | so the fields of a call fit its layout if and only if each is a value of its kind |
| `Calls.CallRoundTrip` | internal/timemachine/wasicall/codec.go:26-1203 | for all widths of the small types and numbers of families and event types, every call whose arguments and results are values of their kinds decodes to them, wherever a record and what follows it have fewer than 2^32 bytes |
| `Calls.CallCanonical` | internal/timemachine/wasicall/codec.go:26-1203 | for all widths of the small types, a record that decodes re-encodes to itself if and only if the dropped bits are zero, and no proper prefix of a record decodes |
| `Calls.DroppedBit` | internal/timemachine/wasicall/codec.go:1344-1351 | when error numbers have fewer than 32 bits, a record with one bit more decodes to a call with another encoding |
| `IOVecs.CountPrefix` | internal/timemachine/wasicall/codec.go:1303-1311 | the first loop stops where the sum of lengths, cut to 32 bits, reaches the size |
| `IOVecs.AppendPrefix` | internal/timemachine/wasicall/codec.go:1312-1323 | the second loop writes vectors while what remains exceeds their lengths, cut to 32 bits |
| `IOVecs.CountExactly` | internal/timemachine/wasicall/codec.go:1303-1311 | the count is the number of vectors needed if and only if the sum does not wrap at the last of them, or that is the last of all |
| `IOVecs.WriteExactly` | internal/timemachine/wasicall/codec.go:1312-1323 | the vectors written are those needed, the last one cut, if and only if the length of that one does not wrap |
| `IOVecs.ShortAgree` | internal/timemachine/wasicall/codec.go:1299-1323 | both hold when the vectors have fewer than 2^32 bytes together |
| `IOVecs.SumWraps` | internal/timemachine/wasicall/codec.go:1299-1323 | vectors for which three are counted and two written |
| `IOVecs.EncodeIOVecsPrefix` | internal/timemachine/wasicall/codec.go:1299-1323 | the count and the vectors that the loops find, and, when both are right, the encoding of the vectors needed |
| `IOVecs.PrefixConcat` | internal/timemachine/wasicall/codec.go:1299-1323 | the recorded vectors concatenate to the first size bytes of the input |
| `IOVecs.PrefixNeeded` | internal/timemachine/wasicall/codec.go:1299-1323 | no vector beyond the last needed one is recorded |
| `IOVecs.PrefixRoundTrip` | internal/timemachine/wasicall/codec.go:1299-1342 | decoding gives those vectors back, and together they are the first size bytes |
| `IOVecs.RecordedExactly` | internal/timemachine/wasicall/codec.go:1299-1304 | the record holds the bytes read if and only if fewer than 2^31 were read |
| `IOVecs.EncodeRead` | internal/timemachine/wasicall/codec.go:310-316 | the record of a read or receive is that of its fields with the vectors replaced by those needed |
| `IOVecs.ReadRoundTrip` | internal/timemachine/wasicall/codec.go:310-410 | that record decodes to the same call, with vectors that are together exactly the bytes read |
| `Bitset.BitSet.Clear` | internal/ipam/bitset.go:9-13 | no bit is set, the length stays |
| `Bitset.BitSet.Grow` | internal/ipam/bitset.go:15-21 | the set as long as asked for, old words kept, new ones zero |
| `Bitset.GrownKeeps` | internal/ipam/bitset.go:15-27 | growing changes no bit and makes room for the last one asked for |
| `Bitset.BitSet.Set` | internal/ipam/bitset.go:29-33 | sets one bit of one word |
| `Bitset.BitSet.Unset` | internal/ipam/bitset.go:35-39 | clears one bit of one word |
| `Bitset.WithBitHas` | internal/ipam/bitset.go:23-39 | that bit changes and no other |
| `Bitset.BitSet.FindFirstZeroBit` | internal/ipam/bitset.go:41-48 | the lowest position whose bit is not set, one past the end when all are |
| `Ip.PrefixIs` | internal/ipam/ipv6.go:44-68 | masking an address of either family rounds it down to a multiple of the network's size, for every prefix length |
| `Ip.AddIs` | internal/ipam/ipv6.go:20-30 | stepping with carry between the halves is addition, within the address space |
| `Ip.SubIs` | internal/ipam/ipv6.go:32-42 | the distance with borrow between the halves is subtraction |
| `Ip.SubUndoesAdd6` | internal/ipam/ipv6.go:20-42 | subtraction undoes addition if and only if the sum stays in the address space |
| `Ip.SubUndoesAdd4` | internal/ipam/ipv4.go:20-31 | for IPv4, if and only if the step has 32 bits |
| `IpPool.Pool.constructor` | internal/ipam/ipv4.go:53-57 | a pool with nothing given out |
| `IpPool.Pool.Reset` | internal/ipam/ipv4.go:65-70 | the pool of another network with nothing given out |
| `IpPool.Pool.Get` | internal/ipam/ipv4.go:77-88 | the address and pool that the specification of taking gives |
| `IpPool.Pool.Put` | internal/ipam/ipv4.go:94-100 | the pool that the specification of giving back gives, or a panic |
| `IpPool.NewGood` | internal/ipam/ipv6.go:77-96 | a new pool's mask tells its network apart, and nothing is out |
| `IpPool.TakeLowest` | internal/ipam/ipv6.go:103-114 | Get gives the lowest free address, in the network, marks only it, and fails only when every address from base to end is out |
| `IpPool.GiveBack` | internal/ipam/ipv6.go:120-126 | an address that is out can be returned and is then the only one no longer out |
| `IpPool.GivePanicsExactly` | internal/ipam/ipv6.go:120-126 | an address that is not out panics, whatever is, if and only if it is not taken for another one of the network from the base on |
| `IpPool.MeantIs` | internal/ipam/ipv6.go:32-42 | which address each one is taken for: itself or none for IPv4; for IPv6 the first from the base on with its lower half, less one when its upper half is below the base's |
| `IpPool.GivePanics` | internal/ipam/ipv4.go:94-100 | so an address that is not out always panics for IPv4, and within a long-prefix IPv6 network |
| `IpPool.GiveTakenForAnother` | internal/ipam/ipv6.go:32-42 | both families of IPv6 addresses that are taken for one that is out: larger upper half and same lower half, smaller upper half and lower half one higher |
| `IpPool.RunBalanced` | internal/ipam/ipv6.go:103-126 | over every run, no address is held twice and every held one is in the network and can be returned |
| `IpPool.NoMask` | internal/ipam/ipv6.go:44-68 | prefix length 0 masks everything away, in both families |
| `IpPool.WholeSpace` | internal/ipam/ipv6.go:103-114 | then Get always succeeds, going on at the start of the address space after its end |
| `IpPool.NeverExhaustedExactly` | internal/ipam/ipv6.go:103-114 | a pool never reports exhaustion if and only if its prefix length is 0 |
| `LocalNetwork.LocalNetwork.constructor` | internal/sandbox/local.go:45-55 | one fresh pool per prefix, no routes |
| `LocalNetwork.LocalNetwork.CreateNamespace` | internal/sandbox/local.go:57-95 | a namespace with one address of each pool, routed to it; or, when a pool has none, the addresses obtained so far returned |
| `LocalNetwork.LocalNetwork.Attach` | internal/sandbox/local.go:97-101 | every address of the interface is routed to it, other routes stay |
| `LocalNetwork.LocalNetwork.Detach` | internal/sandbox/local.go:103-109 | its routes are gone and its addresses back in their pools |
| `LocalNetwork.LocalNamespace.Detach` | internal/sandbox/local.go:163-169 | only the first call detaches |
| `NetworkRuns.GrantedSlots` | internal/sandbox/local.go:80-87 | a creation is given the same slot of every pool, the lowest free one |
| `NetworkRuns.RunSlots` | internal/sandbox/local.go:57-113 | in every run each attached namespace has one slot of its own in all pools, below the bound on namespaces |
| `NetworkRuns.RunAgrees` | internal/sandbox/local.go:57-113 | in every run, failed creations and repeated detaches included, nothing panics, the addresses out of pool i are exactly the i-th addresses of attached namespaces, and with separated pools so are the routes |
| `NetworkRuns.SameAddress` | internal/sandbox/local.go:57-113 | overlapping pools give one address to two namespaces |
| `NetworkRuns.RouteLost` | internal/sandbox/local.go:80-109 | a creation that fails part-way can remove another namespace's route |
| `NetworkRuns.RoutesAgreeExactly` | internal/sandbox/local.go:57-113 | for pools of any prefixes and any bound on the namespaces attached at a time, routes are exactly the attached addresses, each to its owner, in every run if and only if the pools are separated |

## Left out

- Writing through the overlay (create, rename, unlink, chtimes): it delegates to one layer and adds only easy members.
- Overlay.OpenFile: closing already opened layer files on error paths is not modelled; layers are values that do not change while they are read.
- Listing.ListingOfImage: the entries "." and ".." that host directories also list are left out of what a layer enumerates, as are read errors and entries cut off at the end of the read buffer.
- LayerRefs.CountsAreExact: counters are unbounded integers, and a call on a handle does not overlap the Close of that same handle, whose fields internal/sandbox/ocifs/file.go:431 and 441 read again. Goroutines are steps of a transition system, not objects.
- Resolve.ResolvePath: the tree does not change during resolution, so the retry for concurrent changes at internal/sandbox/fs.go:962-973 is not taken, and link targets are not empty.
- Resolve.FileStat: what lstat answers for a last component ".." is up to the callback; `Resolve.StatIsOpened` takes one that stops at the root, as lookup does.
- Resolve.ResolvedStaysInside: the descriptor counts and locks of dirFile are not modelled; the host is trusted to open one component with no-follow as asked.
- Dirents.ReadStored: the Linux layout only; the Darwin one differs in its header.
- ReadDir.WasiDir.FDReadDir: a call that has to pass an entry larger than the buffer does not return and is shown turn by turn (`ReadDir.WasiDir.RefillInVain`); that an entry costs 24 bytes of the budget besides its name is wasi-go's constant, which is not part of this model; the directory does not change, and read errors of the underlying file are not modelled.
- ImageDir.ListStack: names are bytes without null, one character each; inode numbers are any function of the name.
- SocketFD.SafeExactly: threads are program counters of a transition system over atomic loads and swaps; weak memory orders are not modelled, as the atomics used are sequentially consistent.
- Scheduler.StepKeepsInv: a transition system rather than a class, since its content is the interleaving. Closing a scheduler or a group, deadlines, and the HTTP exchange itself (only whether it failed) are not modelled. Process ids are taken as never reused, and single-flight as a lock per key whose followers get the leader's outcome.
- LogFormat.HeaderRoundTrip: flatbuffers tables have a fixed layout behind the 4-byte size prefix; compression is any pair with decompression inverting compression, the checksum any 32-bit function.
- LogReader.ReadFrame: frames over 256 bytes, which the writer does not produce, are shown as a panic because the source slices past an empty buffer.
- LogReader.LogReader.ReadRecordBatch: over an ideal seekable input; the buffering of internal/timemachine/io.go:28-34 is not modelled.
- LogRoundTrip.WriteThenRead: sequential reading of batches whose sizes fit the header's 32-bit fields; LogRecordReader.Seek and the skip after it (internal/timemachine/log.go:196-202) and errors of the output are not modelled.
- LogReader.RecordBatch.ReadTwice: after a short read or a failed decompression the bytes that were not filled are zero here; the source leaves what the reused buffer held.
- Calls.CallRoundTrip: the widths of small types and the numbers of address families and event types come from wasi-go, which is not part of this model; they are parameters, the numbers of families and of event types being different and within their types, and signed small types are taken by their bit pattern. Event data of clock events is empty, as it is not encoded.
- Calls.OrdersAgree: compares the field orders of the Encode and Decode methods as transcribed in two tables; composite types (file status, events, address information and the like) have one layout for both directions, so their orders agree by construction.
- IpPool.RunBalanced: place numbers below 2^64, which 64-bit integers cannot exceed; this restricts only IPv6 prefixes of 64 bits or fewer. `IpPool.NeverExhaustedExactly` likewise takes pools whose end such numbers reach.
- NetworkRuns.RoutesAgreeExactly: at most 2^63 namespaces are attached at a time, more than 64-bit machines can hold; for IPv4 and for IPv6 prefixes longer than 64 bits there never are more.
- LocalNetwork.LocalNetwork.CreateNamespace: the network holds its pools as values of `IpPool.State`, to which `IpPool.Pool` is proved equivalent method by method, not as pool objects; locks, the loopback interface and ports are not modelled.
- Sockets of a local namespace (bind, lookup, the bridges to host sockets): system calls and goroutine plumbing.
- tarfs, throttling, chaos and fallback wrappers, PollOneOff: thin delegation or dependent on the host clock.
- internal/debug/tracing, the command line, the object store, container image fetching, gRPC and HTTP servers, and the Python and C sources: outside the core.
