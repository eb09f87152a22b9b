# OsU kernel: a verified model

OsU is a small x86 kernel. This project models its stateful cores in Dafny and proves what they keep over every run.

| files | what they model |
|---|---|
| `Bytes`, `Disk`, `Fat`, `FatNames`, `NameLaws`, `DirTable`, `LayoutLaws` | 16-bit words in bytes, a sector disk whose transfers may fail, the cluster table, 8.3 names, 32-byte directory entries, and the layout of the disk |
| `Volume`, `VolumeSteps`, `FileSteps`, `DirSteps`, `Blocks`, `Paths`, `FsOps`, `Flushing`, `Garbage` | the volume as a tree, and what each call does to it |
| `FatFs` | the driver itself: `fat_buf`, `root_buf`, `dir_buf`, `read_cache`, `current_path` as arrays changed in place |
| `Runs`, `FsTheorems`, `PathTheorems`, `PathPhases`, `Exact`, `Reached`, `Calls`, `CallLaws`, `Crash` | whole runs, what each call achieves and when it succeeds, reading back, frames, remounting, the path string, exact conditions where a call can do damage, runs that reach the damage, the link from driver calls to runs, and power cycles in the middle of a call |
| `Int32`, `Decimal`, `CosTokens`, `CosParser`, `CosPrinter`, `CosMachine`, `CosScript`, `CosLines`, `CosRefine`, `CosAgree`, `CosNested`, `CosLaws`, `CosEdges`, `CosInterp` | CosyPy: tokenizer, one-pass evaluator, what typed texts come to and where fixed sizes cut, line machine, what it makes of a structured script, where that is the script's meaning, and the interpreter with its shared cursor |
| `Scheduler`, `SchedulerLaws`, `Fairness`, `Kernel` | the round-robin scheduler, its waiting bounds, and the process table in place |
| `Line`, `Screen` | Bresenham lines and the framebuffer |
| `Keyboard` | the key ring between interrupt handler and reader |
| `EditorText`, `EditorSpec`, `EditorLaws`, `Editor` | the modal editor |
| `ForthSpec`, `ForthLaws`, `Forth` | the Forth word machine |

Each stateful core has two layers: a class whose methods loop over arrays and fields as the kernel does, and a
specification on values. Every method's `ensures` ties its new state to the specification, and the theorems are about the
specification. The file system's invariant is `Volume.InvG`: a ghost tree of directories, chains and cluster owners that
describes the table, the directories and the disk exactly.
The modules named `...Laws`, and `CosEdges`, say in literal bytes, keys, characters and numbers what single calls, keys, words and
operators do. The table layout follows the sections "FAT Data Structure" and
"FAT Directory Structure" of Microsoft's "FAT: General Overview of On-Disk Format", version 1.03.

What turned out false of the code is stated with the exact condition under which it holds, and with an input that breaks it:

- Writing to a name does not test for a directory. A successful write keeps the volume well-formed if and only if the name
  is not a directory's (`Exact.WriteKeepsInvIff`; `Reached.WriteOverDirReached` is a run that destroys a volume).
- `rm` does not test either. On a directory it keeps the volume well-formed if and only if no live entry in it holds a
  cluster (`Exact.RemoveDirKeepsInvIff`, `Reached.RemoveDirReached`).
- A write that finds no room has already let the old chain go. It keeps the volume well-formed if and only if the target held
  no cluster, and memory and disk in step if and only if, besides, it is not a new name in the root
  (`Exact.FailedWriteKeepsInvIff`, `Exact.FailedWriteSyncedIff`, `Reached.NoRoomReached`).
- `cd` keeps a right path string right unless it goes down and the longer string does not fit 128 bytes
  (`PathTheorems.ChdirPath`, `Reached.TooDeepReached`). From a mount on the string is untouched, right, or wrong: a relative `cd`
  down before any `pwd` makes it wrong, after which `pwd` does not mend it and only an absolute `cd` does
  (`PathPhases.RunPhase`, `PathPhases.PwdExact`, `PathPhases.CdExact`, `Reached.WrongPathReached`).
- Mounting formats the volume when the read of a good boot sector fails (`FatFs.FileSystem.Init`).
- An append whose read of the old contents fails writes the new text alone (`FatFs.FileSystem.Append`).
- A failing `if` inside an executed branch skips the rest of that branch and its own `else`, and makes the outer `else` run; an `if`
  there that holds runs its `else` as well. The result is right if and only if what is skipped and what runs instead come to the
  same (`CosAgree.OuterIfExact`, `CosAgree.NestedElseExact`; `LosesOutput`, `AddsOutput` and `OuterElseRuns` are scripts that go
  wrong, `NothingLeft` one that does not).
- A loop inside a loop does not nest: its body runs once in every round, its condition takes the place of the outer one, and what
  follows is run if and only if the outer condition failed at once (`CosNested.NestedActs`, `CosNested.NestedScript`;
  `NestedGoesWrong` is a script).
- A ready process that nobody kills can disappear without having run: exactly when a process exits that has already lost the slot
  it still runs in, to that process (`Fairness.ExitGone`, `Fairness.StaleExit`). Without such exits it runs in time
  (`Fairness.RunsWithinSixteen`, `Fairness.RunsWithinTicks`).
- The editor's buffer holds a file with its terminating NUL if and only if the file is shorter than 4096 bytes, and a file of
  4096 bytes can be written (`EditorSpec.OpenFits`, `Reached.LongestFileReached`).
- A key can be dropped with nothing pending, but only between the two stores of a flush (`Keyboard.DropExactly`,
  `Keyboard.FlushCanDrop`).
- A line and the same line drawn from its other end differ exactly at ties (`Line.ReversedPixel`, `Line.ReverseSame`).
- Postfix arithmetic ends as one value if and only if no divisor is zero (`ForthSpec.PostfixExact`).
- `:q` is refused exactly when the text was edited since the last load or successful write, even if it is back to what was
  saved (`EditorSpec.QuitExact`, `EditorSpec.DirtyExact`, `EditorSpec.ErasedStillDirty`).

## Model

| member | source | states |
|---|---|---|
| Fat.DecodeSet | kernel/fs.c:122-131 | storing a table entry as two little-endian bytes changes that entry and no other |
| Fat.DecodeEncode | kernel/fs.c:122-135 | the table written as bytes reads back as the same table |
| Fat.EncodeDecode | kernel/fs.c:122-135 | and every byte image is the image of the table it decodes to |
| Fat.LinkedDistinct | kernel/fs.c:321-331 | a chain that ends never repeats a cluster |
| Fat.LinkedUnique | kernel/fs.c:333-363 | the chain from a first cluster is determined by the table |
| Fat.FreeChainExact | kernel/fs.c:321-331 | on every table, cyclic or corrupt ones too, freeing zeroes exactly the in-range clusters reachable from its argument and leaves all others |
| Fat.FreeLinked | kernel/fs.c:321-331 | freeing a proper chain clears exactly its clusters |
| Fat.FreeAllocated | kernel/fs.c:365-411 | freeing a freshly allocated chain restores the table entry for entry |
| Fat.ExtendAllocated | kernel/fs.c:365-411 | appending a free cluster to a chain under construction gives a chain under construction |
| Fat.FreePlusUsed | kernel/fs.c:311-319 | free and used data clusters add up to 8151 |
| FatNames.FatNameValid | kernel/fs.c:203-236 | every accepted name becomes a valid, blank-padded upper-case 8.3 name |
| FatNames.FatNameCaseInsensitive | kernel/fs.c:189-236 | names with the same capital letters convert alike |
| FatNames.PrintableRoundTrip | kernel/fs.c:203-258 | printing a stored name and converting it back gives the stored name |
| NameLaws.PlainName | kernel/fs.c:189-236 | a name without a dot is accepted if and only if it has 1 to 8 characters from a-z, A-Z, 0-9, `_`, `-` and `$`; the stored base has the small letters 32 lower and blanks behind |
| NameLaws.DottedName | kernel/fs.c:189-236 | with a dot: if and only if such a base and an extension of at most 3 such characters; what is stored of each |
| NameLaws.CaseDoesNotMatter | kernel/fs.c:189-236 | names equal at each place but for letters 32 apart convert alike |
| NameLaws.Shown | kernel/fs.c:238-258 | a stored name is printed as its base and, if it has one, a dot and its extension |
| FatNames.FatNameFromInput | kernel/fs.c:203-236 | the conversion loop computes the name specification, with its error cases |
| FatNames.FatNameToPrintable | kernel/fs.c:238-258 | the printing loop computes the printable form, NUL-terminated |
| DirTable.PutEntry | kernel/fs.c:452-457 | writing an entry's bytes makes that slot read as the entry and leaves every other slot |
| DirTable.ScanMeaning | kernel/fs.c:659-697 | what the early-stopping scan returns: the first match, or none before the first never-used slot |
| DirTable.ScanFree | kernel/fs.c:659-697 | the free slot it reports is the first reusable one |
| DirTable.LookupExact | kernel/fs.c:659-697 | in a well-formed table the early-stopping scan finds a slot if and only if it is live and has the name |
| DirTable.VisibleExact | kernel/fs.c:912-954 | the listing order holds each listable slot exactly once |
| LayoutLaws.EntryLayout | kernel/fs.c:452-457 | the 32 bytes of a stored entry, field by field |
| LayoutLaws.ErasedLayout | kernel/fs.c:480-482 | removing a file sets exactly its slot's first byte to 0xE5 and its cluster and size bytes to 0 |
| LayoutLaws.UnlinkedLayout | kernel/fs.c:806-811 | removing a directory sets exactly its slot's first byte and its cluster bytes so |
| LayoutLaws.Marks | kernel/fs.c:321-331 | which values end a chain, which are clusters, which first bytes mark a slot as not in use |
| LayoutLaws.FormattedFields | kernel/fs.c:93-120 | the sizes in the boot sector a format writes |
| LayoutLaws.ValidExactly | kernel/fs.c:160-187 | a boot sector passes if and only if it is signed and has those sizes |
| LayoutLaws.Regions | kernel/fs.c:80-91 | where table, root and clusters lie and how many clusters there are follow from those sizes by the FAT formulas |
| Volume.ChainsDisjoint | kernel/fs.c:311-411 | two different files share no cluster |
| Volume.ChainAcyclic | kernel/fs.c:311-411 | no chain visits a cluster twice |
| Volume.Conservation | kernel/fs.c:311-411 | the clusters owned by files and directories are exactly the used ones; with the free ones they are 8151 |
| Volume.ParentIsShorter | kernel/fs.c:707-768 | every directory other than the root is one level below its parent: the directories form a tree |
| VolumeSteps.OneSlotInv | kernel/fs.c:433-539 | a change confined to one slot, with its clusters accounted for, keeps the tree |
| VolumeSteps.PutFileInv | kernel/fs.c:433-460 | a new empty entry keeps the tree |
| FileSteps.ContentsInv | kernel/fs.c:494-539 | replacing a file's chain keeps the tree: old clusters freed, new ones owned |
| FileSteps.ContentsWritten | kernel/fs.c:494-539 | the file then holds exactly the data |
| FileSteps.OthersUntouched | kernel/fs.c:494-539 | every other file of every directory keeps its entry, its chain and its bytes |
| FileSteps.EraseInv | kernel/fs.c:462-492 | erasing an entry whose chain was freed keeps the tree |
| DirSteps.DirImageFacts | kernel/fs.c:728-744 | a new directory's sector holds `.` and `..` with the right clusters and nothing else |
| DirSteps.MakeDirInv | kernel/fs.c:707-768 | a new directory joins the tree under the current one |
| DirSteps.EmptyScanExact | kernel/fs.c:797-804 | the emptiness loop says yes exactly when the directory has no live entry beyond the dot entries |
| DirSteps.DropDirInv | kernel/fs.c:770-817 | unlinking a directory that owns nothing keeps the tree |
| Blocks.AllocatedRoom | kernel/fs.c:365-411 | every allocated cluster was free before: the free set shrinks by the chain's length |
| Blocks.FailedBlock | kernel/fs.c:365-411 | a failure part-way has written only clusters that were free at the call |
| FsOps.LoadLinked | kernel/fs.c:333-363 | the reading loop over a proper chain yields the file's bytes |
| FsOps.FormattedRegions | kernel/fs.c:141-159 | formatting writes a boot sector that validates, an empty table and an empty root |
| FsOps.MountSyncs | kernel/fs.c:413-431 | mounting leaves memory equal to the disk |
| FsOps.RemountSame | kernel/fs.c:413-431 | mounting a synchronised volume again changes nothing in the table, root or disk |
| Flushing.FlushFrame | kernel/fs.c:133-139 | a flush changes no data cluster but the current directory's |
| Flushing.FlushSyncs | kernel/fs.c:700-705 | after a flush the disk's table and root equal those in memory and the boot sector still validates |
| Flushing.WriteOutcome | kernel/fs.c:518-538 | data blocks, slot and flush together are a successful write |
| Flushing.MkdirOutcome | kernel/fs.c:722-767 | cluster, image, slot and flush together are a successful mkdir |
| Paths.PushPathText | kernel/fs.c:875-887 | entering appends a component to the string when it fits |
| Paths.PopPathText | kernel/fs.c:846-855 | leaving removes the last component |
| Paths.LastByteStaysNul | kernel/fs.c:819-890 | the path buffer's last byte is never overwritten |
| FatFs.FileSystem.FatGet | kernel/fs.c:122-125 | reads the decoded entry |
| FatFs.FileSystem.FatSet | kernel/fs.c:127-131 | changes that entry of the decoded table only |
| FatFs.FileSystem.AllocCluster | kernel/fs.c:311-319 | takes the lowest free cluster and marks it end of chain; returns 0 exactly when none is free |
| FatFs.FileSystem.FreeFrom | kernel/fs.c:321-331 | terminates on every table and computes the exact freeing |
| FatFs.FileSystem.LoadClusterChain | kernel/fs.c:333-363 | fills the cache with the chain's bytes and a NUL, or fails exactly on a transfer fault |
| FatFs.FileSystem.WriteClusterChain | kernel/fs.c:365-411 | on success a fresh chain of ceil(size/512) clusters holds the data; on any failure the table is as at the call; either way only free clusters were written; without faults it succeeds exactly when there is room |
| FatFs.FileSystem.CurrentDirEntries | kernel/fs.c:647-656 | gives the current directory's table |
| FatFs.FileSystem.FindEntryInCurrent | kernel/fs.c:659-697 | the lookup loop computes the lookup specification |
| FatFs.FileSystem.FlushFat | kernel/fs.c:133-135 | writes the table region and nothing else |
| FatFs.FileSystem.FlushCurrentDir | kernel/fs.c:700-705 | writes the root region, or the current directory's sector, and nothing else |
| FatFs.FileSystem.Touch | kernel/fs.c:433-460 | creates an empty file, leaves an existing one, or refuses with nothing changed; exact return code; a failing flush leaves the entry in memory and only metadata on the disk in doubt |
| FatFs.FileSystem.WriteRaw | kernel/fs.c:494-539 | replaces the contents, or refuses with nothing changed, or runs out of room; exact return code; a failing flush leaves data and memory written and only metadata on the disk in doubt |
| FatFs.FileSystem.Append | kernel/fs.c:545-566 | writes old bytes followed by the text; a failing read counts as an empty file; failures as for a write |
| FatFs.FileSystem.ReadPtr | kernel/fs.c:568-601 | returns exactly the named file's bytes |
| FatFs.FileSystem.Remove | kernel/fs.c:462-492 | frees the chain and erases the entry; exact return code; a failing flush leaves both in memory and only metadata on the disk in doubt |
| FatFs.FileSystem.Mkdir | kernel/fs.c:707-768 | makes a directory, or refuses with nothing changed; exact return code; what each later failure (-4, -5, -6) leaves |
| FatFs.FileSystem.Rmdir | kernel/fs.c:770-817 | removes an empty directory, or refuses with nothing changed; exact return code; a failing flush as for rm |
| FatFs.FileSystem.ChangeDir | kernel/fs.c:819-890 | computes the directory and string specification, fault cases included |
| FatFs.FileSystem.GetPath | kernel/fs.c:892-898 | initialises the string to the root on first use |
| FatFs.FileSystem.ListDirEntry | kernel/fs.c:912-954 | returns the index-th visible entry, or none exactly past the end |
| FatFs.FileSystem.Format | kernel/fs.c:141-159 | writes boot sector, table and root of an empty volume |
| FatFs.FileSystem.Init | kernel/fs.c:413-431 | mounts, formatting first when the boot sector is not valid or cannot be read; a volume whose boot sector is read and valid is not written; ready implies synchronised; data sectors are never written |
| Runs.FormattedInv | kernel/fs.c:141-159 | a formatted volume is a well-formed tree |
| Runs.WriteSpares | kernel/fs.c:494-539 | a write to a file never frees the current directory's cluster |
| CallLaws.WriteSucceeds | kernel/fs.c:494-529 | without faults a write to a file succeeds if and only if the volume is mounted, the name acceptable, there or addable, the data at most 4096 bytes, and no more than the free clusters and the old ones hold |
| Runs.TouchedInv | kernel/fs.c:433-460 | touch keeps the tree |
| CallLaws.TouchCreates | kernel/fs.c:433-460 | after a touch the name is found; a new one is an empty file, without cluster, in the first free slot, and reads as nothing; an old one is left alone |
| CallLaws.TouchSucceeds | kernel/fs.c:433-460 | without faults a touch succeeds if and only if the volume is mounted, the name acceptable, and the file there or a slot not taken |
| Runs.WrittenInv | kernel/fs.c:494-566 | write and append keep the tree |
| Runs.RemovedInv | kernel/fs.c:462-492 | rm of a file keeps the tree |
| CallLaws.RemoveForgets | kernel/fs.c:462-492 | after rm of a file its name is not found and its chain's clusters are free |
| Runs.MadeDirInv | kernel/fs.c:707-768 | mkdir adds exactly one directory |
| CallLaws.MkdirCreates | kernel/fs.c:707-768 | after mkdir the name is found as a directory with a cluster that was free and is the end of its chain, holding `.` and `..` and nothing else |
| CallLaws.MkdirSucceeds | kernel/fs.c:707-768 | without faults it succeeds if and only if the volume is mounted, the name acceptable and not there, a slot not taken and a cluster free |
| Runs.RemovedDirInv | kernel/fs.c:770-817 | rmdir removes exactly that directory |
| CallLaws.RmdirForgets | kernel/fs.c:770-817 | after rmdir the name is not found and the directory's cluster is free |
| CallLaws.RmdirSucceeds | kernel/fs.c:770-817 | without faults it succeeds if and only if the name is a directory's in which no entry is live beyond the dots |
| Runs.ChdirInv | kernel/fs.c:819-890 | cd ends in a live directory of the tree |
| CallLaws.Refusals | kernel/fs.c:433-817 | what touch, write, rm, mkdir and rmdir return, without faults, for a name not acceptable, missing or there already, for a full directory and for a full volume |
| CallLaws.NotEmpty | kernel/fs.c:793-804 | rmdir of a directory with a live entry returns -4 |
| CallLaws.CdEnters | kernel/fs.c:859-889 | cd to a directory's name enters that child of the current directory |
| CallLaws.CdLeaves | kernel/fs.c:833-857 | `cd ..` enters the parent, and stays in the root |
| CallLaws.CdRoot | kernel/fs.c:824-831 | `cd /` enters the root, and an absolute path starts there |
| CallLaws.CdRefuses | kernel/fs.c:859-870 | a missing name gives -3, a file's -5, and nothing changes |
| Runs.StepInv | kernel/fs.c:433-890 | every call keeps the tree |
| Runs.RunInv | kernel/fs.c:433-890 | over every run of touch, write, append, rm, mkdir, rmdir, cd and pwd, writes refused for lack of room at no cost included, every state is a well-formed tree |
| Calls.Perform | kernel/fs.c:433-898 | every driver call on a well-formed volume is such a step and leaves buffers and disk well-formed and synchronised, faults and full disks aside; whatever fails, its outcome is one of those listed |
| Calls.OutcomeSpares | kernel/fs.c:433-817 | in every such outcome the clusters the call did not set out to free keep link and bytes |
| Calls.FilesSurvive | kernel/fs.c:433-817 | so every file the call does not name keeps its chain and its bytes |
| Crash.MixedLink | kernel/fs.c:133-135 | a link on which the old and the new table agree survives any mixture of their sectors on the disk |
| Crash.MixedEntry | kernel/fs.c:700-705 | and so does a directory entry |
| Crash.CutIntact | kernel/fs.c:531-536 | a flush cut short leaves every link and entry on the disk but the edited slot and the freed clusters |
| Crash.CrashSafe | kernel/fs.c:413-817 | wherever a failing transfer cuts a call short, after a power cycle and a mount every file the call does not name is found again with the same bytes |
| FsTheorems.ReadIsContents | kernel/fs.c:568-601 | reading a file returns its contents |
| FsTheorems.ReadAfterWrite | kernel/fs.c:494-601 | after a successful write the next read returns exactly those bytes |
| FsTheorems.ReadAfterAppend | kernel/fs.c:545-601 | after an append it returns the old bytes followed by the new |
| FsTheorems.StepFrame | kernel/fs.c:433-890 | every call leaves every file it does not name with the same entry, size and bytes |
| FsTheorems.StepSynced | kernel/fs.c:413-817 | every call leaves the disk's table and root equal to memory and the boot sector valid |
| FsTheorems.RunSynced | kernel/fs.c:413-817 | over every run |
| FsTheorems.RebootKeepsTree | kernel/fs.c:413-431 | mounting after a power cycle finds the same tree and the same contents |
| FsTheorems.FirstMount | kernel/fs.c:413-431 | mounting a disk without a valid boot sector makes an empty, synchronised, well-formed volume |
| FsTheorems.LifeOfADisk | kernel/fs.c:413-898 | first mount, any run of calls, power cycle, mount: the tree and every file of the last state are found again |
| FsTheorems.ListingExact | kernel/fs.c:912-954 | a listing shows each live entry once, and looking up what it prints finds that entry |
| PathTheorems.ChdirPath | kernel/fs.c:819-890 | after cd the string names the current directory unless cd goes down and the start string with the found name below it has 128 characters or more |
| PathTheorems.DownAndUp | kernel/fs.c:819-890 | `cd d` then `cd ..` restores directory and string |
| PathPhases.CdExact | kernel/fs.c:819-898 | whenever the string is untouched or wrong, a cd makes it right if and only if its path is absolute |
| PathPhases.PwdExact | kernel/fs.c:892-898 | a pwd leaves the string right if and only if it was right already, or was empty at the root |
| PathPhases.StepPhase | kernel/fs.c:819-898 | each call moves the string between untouched, right and wrong as stated |
| PathPhases.RunPhase | kernel/fs.c:819-898 | over every run from a mount with room for the strings, the string is right exactly from the first pwd before any relative cd down, or from an absolute cd, on |
| PathTheorems.RunPath | kernel/fs.c:707-898 | from then on, over every run whose paths fit, the string is the slash-join of the names from the root |
| Exact.WriteKeepsInvIff | kernel/fs.c:518-521 | a successful write keeps the tree if and only if its target is not a directory |
| Exact.FailedWriteKeepsInvIff | kernel/fs.c:518-526 | a write without room keeps the tree if and only if its target, file or directory, held no cluster |
| Exact.FailedWriteSyncedIff | kernel/fs.c:505-526 | and leaves memory and disk in step if and only if, besides, it is not a new name in the root |
| Exact.RemoveDirKeepsInvIff | kernel/fs.c:475-478 | rm of a directory keeps the tree if and only if no live entry in it holds a cluster |
| Garbage.GarbageInv | kernel/fs.c:365-411 | what free clusters contain does not matter |
| Garbage.RefusedIs | kernel/fs.c:518-526 | a write without room whose target held no cluster, and is no new name in the root, changed free clusters at most |
| Reached.WriteOverDirHappens | kernel/fs.c:518-538 | in every well-formed state an empty write over any directory succeeds and leaves no tree |
| Reached.RemoveDirHappens | kernel/fs.c:475-491 | in every well-formed state rm of any directory succeeds, and leaves no tree if a live entry in it holds a cluster |
| Reached.FailedWriteHappens | kernel/fs.c:518-526 | a write without room over a file with clusters in a subdirectory leaves no tree |
| Reached.WriteOverDirReached | kernel/fs.c:518-521 | a run from an empty disk after which such a write succeeds |
| Reached.RemoveDirReached | kernel/fs.c:475-478 | a run from an empty disk after which such an rm succeeds |
| Reached.NoRoomReached | kernel/fs.c:523-526 | a run from an empty disk that fills it, after which a write returns -3 and loses a file |
| Reached.TooDeepReached | kernel/fs.c:875-887 | a run from an empty disk to nine nested directories; entering the tenth leaves the string behind |
| Reached.WrongPathReached | kernel/fs.c:872-898 | mount, mkdir, relative cd: the string is wrong, and the first pwd does not mend it |
| Reached.LongestFileReached | kernel/fs.c:494-499 | a file of 4096 bytes can be written |
| CosTokens.LexInside | kernel/cospy.c:100-211 | whatever the line buffer holds, the cursor only moves forward, never over the terminating NUL, and every token but the end token moves it |
| CosTokens.AfterNul | kernel/cospy.c:100-106 | blanks up to a NUL are the end of the line, whatever the buffer holds after it |
| CosEdges.WordToken | kernel/cospy.c:138-156 | letters, digits and underscores are read as one word up to its 31st character; `and`, `or` and `not` are keywords |
| CosEdges.QuotedToken | kernel/cospy.c:125-136 | text in single or double quotes is read up to its 63rd character |
| CosEdges.SignToken | kernel/cospy.c:109-168 | the single signs; a minus before a digit belongs to the number |
| CosEdges.EqualsToken | kernel/cospy.c:169-206 | `=`, `!`, `<` and `>`, with and without an equals sign after them |
| CosEdges.OtherTokens | kernel/cospy.c:100-123 | digits are their value in 32 bits, `#` ends the line, blanks and tabs are passed over |
| CosParser.Parse | kernel/cospy.c:240-400 | the mutually recursive levels terminate on every token sequence and never hand back more than they got |
| CosParser.ParseToks | kernel/cospy.c:240-400 | parsing a tree's tokens at any level computes the tree's value and hands on what follows |
| CosParser.ParseWhole | kernel/cospy.c:390-400 | the evaluator stops exactly at the first token that is no operator |
| CosParser.EvalIdeal | kernel/cospy.c:307-400 | without overflow the 32-bit value is the mathematical one, with division toward zero and zero for a zero divisor |
| CosLaws.ArithmeticText | kernel/cospy.c:307-352 | two numbers with `+`, `-` or `*` between, as typed, evaluate to sum, difference and product |
| CosLaws.DivisionText | kernel/cospy.c:307-334 | with `/` and `%`: quotient toward zero, remainder with the dividend's sign, both 0 for a zero divisor |
| CosLaws.ZeroText | kernel/cospy.c:307-334 | a zero divisor of `/` is reported, one of `%` is not |
| CosLaws.ComparisonText | kernel/cospy.c:354-376 | each of the six comparisons, as typed, is 1 when it holds of the two numbers and 0 otherwise |
| CosLaws.LogicText | kernel/cospy.c:294-400 | `and`, `or` and `not`, as typed, of numbers where only 0 is false; a minus in front negates |
| CosLaws.SumsAndProducts | kernel/cospy.c:307-352 | multiplication binds tighter than addition, equal operators group from the left |
| CosLaws.LooserOperators | kernel/cospy.c:336-400 | addition binds tighter than comparison, comparison than `and`, `and` than `or` |
| CosEdges.PrintsNumber | kernel/cospy.c:520-530 | a printed number is its 32 bits read as unsigned |
| CosEdges.InputLine | kernel/cospy.c:270-275 | `x = input()` takes the next line typed, as a 32-bit number |
| CosEdges.CallLine | kernel/cospy.c:260-278 | any other call is 0 |
| CosEdges.StringLine | kernel/cospy.c:247-252 | a string is its length |
| CosLaws.AssignRead | kernel/cospy.c:214-235 | a variable reads as what was last assigned to it, others keep their values |
| CosLaws.FullTable | kernel/cospy.c:229-231 | a 65th name is ignored |
| Int32.DivModSpec | kernel/cospy.c:307-334 | C division and remainder: the dividend is recovered, and the remainder has its sign and is smaller than the divisor |
| CosPrinter.TokensOfShow | kernel/cospy.c:100-211 | the tokenizer reads a printed tree back as the tree's tokens |
| CosPrinter.RoundTrip | kernel/cospy.c:100-400 | text with spaced operators and only the needed parentheses evaluates to the tree's value and stops at the terminator |
| CosMachine.SplitJoin | kernel/cospy.c:654-669 | a file's lines are cut where they were joined |
| CosEdges.LongFile | kernel/cospy.c:654-669 | of a file the first 64 lines are run |
| CosEdges.LongLine | kernel/cospy.c:661-669 | a line of more than 127 characters goes on as the next |
| CosEdges.LongBody | kernel/cospy.c:681-690 | of a loop body the first 16 lines are kept |
| CosEdges.IgnoredLines | kernel/cospy.c:425-449 | empty lines, comments, `exit` and `quit` do nothing in a file |
| CosRefine.SkipRuns | kernel/cospy.c:451-485 | skipped blocks, however nested, change nothing and end where they began |
| CosRefine.BlockActs | kernel/cospy.c:419-534 | executing a block's lines is what the block's meaning for the machine says, skipping flag included |
| CosRefine.LoopActs | kernel/cospy.c:692-709 | the collected body runs round by round, at most 1000 times; a flag its ifs set stays for the rounds after |
| CosRefine.ScriptActs | kernel/cospy.c:638-715 | running any script file whose reached loops have no loop inside and at most 16 lines gives the variables and output of that meaning and ends with no if, no skipping and no loop open |
| CosAgree.OkAgrees | kernel/cospy.c:451-485 | where what is skipped would change nothing and what runs besides changes nothing, that meaning is the structured one |
| CosAgree.ScriptRuns | kernel/cospy.c:638-715 | running such a script file gives the variables and output of the structured semantics |
| CosAgree.StraightRuns | kernel/cospy.c:638-715 | in particular scripts whose ifs and loops hold only assignments and prints |
| CosLaws.FileRuns | kernel/cospy.c:638-715 | a script of ten lines, as typed, prints 3, 2, 1 and done |
| CosLaws.ThousandRounds | kernel/cospy.c:692-707 | a loop that never ends runs a thousand rounds |
| CosLaws.CountDown | kernel/cospy.c:692-707 | a loop counting a variable down to 0 from at most 1000 ends with it at 0 |
| CosLaws.IfTakes | kernel/cospy.c:469-485 | an if takes its then part on every number but 0, its else part on 0 |
| CosAgree.OuterIfExact | kernel/cospy.c:451-485 | an if whose branch holds a failing if is right if and only if the outer else part comes to the same as the inner else and the rest of the branch |
| CosAgree.OuterIfLines | kernel/cospy.c:451-485 | the same of its lines |
| CosAgree.NestedElseExact | kernel/cospy.c:462-467 | a holding if with an else inside an executed branch is right if and only if its else part would change nothing |
| CosAgree.LosesOutput | kernel/cospy.c:452-484 | a script that prints less than its structure says |
| CosAgree.AddsOutput | kernel/cospy.c:462-467 | a script that prints more |
| CosAgree.OuterElseRuns | kernel/cospy.c:452-484 | a script whose outer else part runs although the outer if holds |
| CosAgree.NothingLeft | kernel/cospy.c:452-484 | a script with a failing inner if that runs as it should |
| CosNested.NestedActs | kernel/cospy.c:681-709 | a loop with a loop inside: the outer condition is tested once, each round runs all other lines once, the inner body too, and from the second round on the inner condition decides; afterwards no loop is left open if and only if the outer condition failed at once |
| CosNested.NestedScript | kernel/cospy.c:638-715 | what a file with such a loop and loop-free lines after it comes to: once the outer condition has held those lines are never run |
| CosNested.NestedGoesWrong | kernel/cospy.c:681-709 | a script of seven lines that prints 7 and should print done |
| CosInterp.Interp.NextToken | kernel/cospy.c:100-211 | the cursor loop computes the token specification and stays inside its line |
| CosInterp.Interp.Advance | kernel/cospy.c:100-211 | consuming a token shortens what is left; the end token is never consumed |
| CosInterp.Interp.GetValue | kernel/cospy.c:214-221 | the table scan reads the variable map, zero when absent |
| CosInterp.Interp.SetValue | kernel/cospy.c:223-235 | the table scan updates the map, ignoring new names when full |
| CosInterp.Interp.ParsePrimary | kernel/cospy.c:240-305 | the shared-cursor primary computes the functional parser, terminating, with the cursor still inside its line |
| CosInterp.Interp.ParseTerm | kernel/cospy.c:307-334 | so does each level's loop: multiplicative |
| CosInterp.Interp.ParseAdditive | kernel/cospy.c:336-352 | additive |
| CosInterp.Interp.ParseComparison | kernel/cospy.c:354-376 | comparison |
| CosInterp.Interp.ParseAnd | kernel/cospy.c:378-388 | conjunction |
| CosInterp.Interp.ParseExpr | kernel/cospy.c:390-400 | disjunction |
| CosInterp.Interp.ExecuteStatement | kernel/cospy.c:419-567 | one line changes the interpreter as the line machine says |
| CosInterp.Interp.CollectLines | kernel/cospy.c:654-669 | the file is cut into at most 64 lines |
| CosInterp.Interp.RunLoop | kernel/cospy.c:692-707 | the loop of a collected body |
| CosInterp.Interp.RunScript | kernel/cospy.c:638-715 | a whole file |
| Scheduler.ScheduleSpec | kernel/process.c:154-210 | an enabled decision leaves no zombie and runs the first ready slot in cyclic order after the old current one, or keeps the current one when none is ready |
| Scheduler.ScheduledSlot | kernel/process.c:144-210 | and what it leaves in every slot |
| Scheduler.StepInv | kernel/process.c:17-233 | every event keeps: at most one slot runs and it is the current one, every live slice is 1 to 10 |
| Scheduler.RunInv | kernel/process.c:17-233 | in every reachable state |
| Scheduler.StepPids | kernel/process.c:53-142 | live PIDs stay distinct and below the counter, and a created process gets the counter's value |
| Scheduler.RunPids | kernel/process.c:53-142 | over every run with fewer creations than PIDs left, whatever else happens; the counter grows by at most the creations |
| Scheduler.NeverReissued | kernel/process.c:53-95 | the PIDs of two successful creations of one run differ, the later being larger |
| SchedulerLaws.CreateLaw | kernel/process.c:53-95 | a creation puts a ready process with the next PID and ten ticks into the first unused slot and changes no other; with none unused it changes nothing |
| SchedulerLaws.KillEnds | kernel/process.c:126-141 | a kill ends its target: with no decision taken it is a zombie with exit code -1 and all else is as before, otherwise its slot is free |
| SchedulerLaws.KillGone | kernel/process.c:126-141 | a process that waits or runs is ended by a kill if and only if the kill names its PID |
| SchedulerLaws.KillNobody | kernel/process.c:126-130 | a kill with a PID no live process has changes nothing |
| SchedulerLaws.ExitEnds | kernel/process.c:98-107 | an exit frees the current slot, keeping the code there; whoever else waited waits on or runs |
| SchedulerLaws.TenTicks | kernel/process.c:218-233 | of ten ticks on a fresh slice nine only count it down and the tenth is a scheduling decision |
| SchedulerLaws.IdleTick | kernel/process.c:218-221 | ticks do nothing while the scheduler is off or nobody has run |
| Fairness.StepCloser | kernel/process.c:154-233 | every scheduling decision brings a waiting process at least one place nearer |
| Fairness.StaysOrEnds | kernel/process.c:98-142 | unless it is itself ended, a waiting process stays waiting or runs |
| Fairness.NoStarvation | kernel/process.c:154-233 | a ready process runs, is killed, or is ended by an exit through its slot, before more decisions are taken than there are slots up to its own |
| Fairness.SixteenDecisions | kernel/process.c:154-210 | so within 16 decisions |
| Fairness.BoundedTicks | kernel/process.c:218-233 | and within 160 timer ticks once a process has been current |
| Fairness.ExitGone | kernel/process.c:98-108 | an exit ends a waiting process exactly when its slot is the current one |
| Fairness.StaleExit | kernel/process.c:98-141 | a run in which a killed process exits and ends the one created in its slot |
| Fairness.RunsWithinSixteen | kernel/process.c:154-210 | if every exit is by the running process, a ready process that nobody kills runs within 16 decisions |
| Fairness.RunsWithinTicks | kernel/process.c:218-233 | and within 160 timer ticks once a process has been current |
| Kernel.ProcessTable.constructor | kernel/process.c:17-23 | the table starts in the initial state |
| Kernel.ProcessTable.FindFreeSlot | kernel/process.c:26-33 | the scan finds the first unused slot |
| Kernel.ProcessTable.FindProcess | kernel/process.c:36-44 | the scan finds the first live slot with the PID |
| Kernel.ProcessTable.Create | kernel/process.c:53-95 | a creation step; returns the PID, or -1 exactly when no slot is unused |
| Kernel.ProcessTable.Exit | kernel/process.c:98-113 | an exit step |
| Kernel.ProcessTable.Kill | kernel/process.c:126-141 | a kill step; returns -1 exactly when no live process has the PID |
| Kernel.ProcessTable.CleanupZombies | kernel/process.c:144-151 | frees exactly the zombie slots |
| Kernel.ProcessTable.SearchReady | kernel/process.c:175-182 | the cyclic scan finds the first ready slot |
| Kernel.ProcessTable.RunNext | kernel/process.c:154-210 | a scheduling decision |
| Kernel.ProcessTable.Enable | kernel/process.c:213-215 | switches the scheduler on and changes nothing else |
| Kernel.ProcessTable.TimerTick | kernel/process.c:218-233 | a tick |
| Line.PixelEnds | kernel/vesa.c:383-411 | the pixels start at the first endpoint and end at the second |
| Line.PixelSteps | kernel/vesa.c:383-411 | each step moves one along the longer axis and at most one along the other |
| Line.HalfPixel | kernel/vesa.c:383-411 | every pixel lies within half a pixel of the ideal line, and none in its column (or row) is nearer |
| Line.PixelsDistinct | kernel/vesa.c:383-411 | no pixel is visited twice |
| Line.TestsAreSteps | kernel/vesa.c:399-409 | the two error tests decide exactly the rounding of the next step |
| Line.ErrBound | kernel/vesa.c:393-409 | twice the error term is at most three times the line's length, so lines up to a third of the int range do not overflow |
| Line.ReversedPixel | kernel/vesa.c:383-411 | drawn from the other end a step has the same pixel if and only if it is no tie |
| Line.ReverseSame | kernel/vesa.c:383-411 | a line and its reverse are the same pixels if and only if no step is a tie |
| Line.TwoByOne | kernel/vesa.c:383-411 | the smallest line whose two drawings differ |
| Screen.PaintedPixel | kernel/vesa.c:254-269 | painting shows the colour at exactly the painted visible pixels, at 24 and 32 bits per pixel |
| Screen.PaintedRest | kernel/vesa.c:254-269 | bytes of no visible pixel keep their value |
| Screen.ColorRoundTrip | kernel/vesa.c:254-287 | a stored colour reads back, without its top byte at 24 bits per pixel |
| Screen.PutSeen | kernel/vesa.c:254-287 | a pixel write shows at its own pixel and at no other |
| Screen.PixelBytes | kernel/vesa.c:254-269 | a write replaces exactly the three or four bytes at the pixel's place in the buffer |
| Screen.BluesFirst | kernel/vesa.c:254-269 | by blue, green, red and, at 32 bits, the top byte |
| Screen.Display.PutPixel | kernel/vesa.c:254-269 | a clipped write of one pixel's bytes, by word at 32 bits and by three bytes at 24 |
| Screen.Display.GetPixel | kernel/vesa.c:272-287 | reads a visible pixel, 0 elsewhere |
| Screen.Display.DrawLine | kernel/vesa.c:383-411 | for all endpoints the loop terminates having plotted exactly the max(abs dx, abs dy) + 1 pixels of the segment, in order |
| Keyboard.EnqueuePending | kernel/keyboard.c:57-64 | a key joins the pending ones at the end, or is dropped exactly when 255 are pending |
| Keyboard.AdvancePending | kernel/keyboard.c:66-73 | the tail holds the oldest pending key |
| Keyboard.ActInv | kernel/keyboard.c:57-73 | an interrupt between any two accesses of the reader keeps: delivered followed by pending is accepted, and the cell being read is intact |
| Keyboard.ActsInv | kernel/keyboard.c:57-202 | under every interleaving, flushes included |
| Keyboard.NothingLost | kernel/keyboard.c:57-202 | what the reader got is a prefix of what was accepted and the rest is pending |
| Keyboard.DropExactly | kernel/keyboard.c:57-64 | exactly when a key is dropped, in and outside a flush |
| Keyboard.Room | kernel/keyboard.c:57-64 | outside a flush at most 255 keys are pending, and a key is dropped exactly at 255 |
| Keyboard.ReaderGets | kernel/keyboard.c:57-73 | a reader that starts with keys pending gets the oldest, whatever keys come in between |
| Keyboard.FlushCanDrop | kernel/keyboard.c:187-191 | a run in which the middle of a flush drops a key with nothing pending |
| Keyboard.KeyRing.EnqueueChar | kernel/keyboard.c:57-64 | the handler's update of the ring |
| Keyboard.KeyRing.DequeueChar | kernel/keyboard.c:66-73 | the reader's update of the ring |
| Keyboard.KeyRing.Flush | kernel/keyboard.c:187-191 | nothing is pending afterwards |
| EditorText.LinesRoundTrip | kernel/editor.c:17-29 | a text is its newline-free lines joined by newlines |
| EditorText.HasRow | kernel/editor.c:17-29 | every position has a row and a column |
| EditorText.DownRow | kernel/editor.c:242-250 | a move down lands on the next row at min(column, its length), and does nothing on the last row |
| EditorText.UpRow | kernel/editor.c:251-259 | a move up lands on the row above at min(column, its length), and does nothing on the first row |
| EditorText.DownUp | kernel/editor.c:242-259 | down and up comes back if and only if the lower row is long enough |
| EditorSpec.EditInv | kernel/editor.c:165-289 | for every key sequence the cursor stays in a text of at most 4095 characters, and `:q` or `:wq` leaves nothing unsaved |
| EditorSpec.SessionInv | kernel/editor.c:147-289 | from the opening of any file of at most 4095 characters |
| EditorSpec.QuitExact | kernel/editor.c:272-277 | the keys of `:q` leave the editor exactly when the dirty flag is clear |
| EditorSpec.DirtyExact | kernel/editor.c:169-277 | after every key sequence not ending in `:wq` the dirty flag is set exactly when the text was edited since the last load or successful write; `:wq` leaves nothing edited |
| EditorSpec.QuitUnedited | kernel/editor.c:272-277 | a session left by `:q` has no edit since the last load or successful write |
| EditorSpec.ErasedStillDirty | kernel/editor.c:188-210 | a typed and erased character still blocks `:q` |
| EditorSpec.OpenFits | kernel/editor.c:155-163 | the buffer can hold a text and its NUL if and only if the text is shorter than 4096 characters |
| EditorLaws.Opened | kernel/editor.c:155-167 | a session starts on the first character, not inserting, with nothing unsaved |
| EditorLaws.KeyDown | kernel/editor.c:242-250 | from row r and column c, `j` or the down arrow leads to row r + 1 at min(c, its length), and does nothing on the last row |
| EditorLaws.KeyUp | kernel/editor.c:251-259 | `k` or the up arrow leads to row r - 1, and does nothing on the first |
| EditorLaws.KeySideways | kernel/editor.c:212-236 | `h`, `l` and the arrows move one place, inside the text |
| EditorLaws.KeyModes | kernel/editor.c:175-228 | `i` starts inserting, Escape ends it, Ctrl+S saves in both modes |
| EditorLaws.KeyDelete | kernel/editor.c:237-241 | `x` or Delete takes out exactly the character under the cursor |
| EditorLaws.KeyBackspace | kernel/editor.c:188-194 | Backspace, when inserting, the one before it |
| EditorLaws.KeyTyped | kernel/editor.c:196-210 | a printable key or Enter, when inserting, goes in before the cursor while the text is shorter than 4095 |
| EditorLaws.OtherKeys | kernel/editor.c:174-259 | all other keys do nothing |
| EditorLaws.ColonWord | kernel/editor.c:260-288 | a colon, a word of at most 15 characters and Enter run that command, and the session goes on with the next key or ends |
| EditorLaws.ColonCommands | kernel/editor.c:265-287 | what each command does; other words do nothing |
| EditorLaws.ColonEditing | kernel/editor.c:82-120 | Escape gives the command line up, Backspace takes its last character back, keys beyond the fifteenth are dropped |
| Editor.Session.FindLineStart | kernel/editor.c:17-22 | the backward scan |
| Editor.Session.FindLineEnd | kernel/editor.c:24-29 | the forward scan |
| Editor.Session.InsertChar | kernel/editor.c:122-134 | the shifting loop inserts one character at the cursor, NUL-terminated, or refuses a full buffer |
| Editor.Session.DeleteAt | kernel/editor.c:136-145 | the shifting loop removes one character, NUL-terminated |
| Editor.Session.ReadColonCmd | kernel/editor.c:82-120 | reads the command line with backspace, cancel and trailing blanks removed, never past its buffer |
| Editor.Session.HandleInsert | kernel/editor.c:174-218 | a key in insert mode |
| Editor.Session.HandleNormal | kernel/editor.c:220-259 | a key in normal mode |
| Editor.Session.EditFile | kernel/editor.c:165-289 | a whole session is the key machine's session |
| ForthSpec.RunInv | kernel/lang.c:91-171 | whatever the words, the stack holds at most 128 values |
| ForthSpec.ShuffleLaws | kernel/lang.c:127-143 | two swaps, or a dup and a drop, change nothing |
| ForthLaws.StackWords | kernel/lang.c:127-143 | `swap` exchanges the two top values, `dup` doubles the top one, `drop` takes it away, and the values below stay |
| ForthLaws.StackRefusals | kernel/lang.c:127-148 | without enough values, or room, they say so and the stack stays |
| ForthLaws.ArithmeticWords | kernel/lang.c:95-115 | two numbers and `+`, `-` or `*`, as typed, leave sum, difference and product |
| ForthLaws.DivisionWord | kernel/lang.c:116-126 | and `/` the quotient toward zero, or both numbers and a message for a zero divisor |
| ForthLaws.OneOperand | kernel/lang.c:95-119 | with one operand an operator says so, and the operand is lost |
| ForthLaws.DotWord | kernel/lang.c:144-151 | `.` takes the top value away and prints it, as unsigned, and a newline |
| ForthLaws.StackShown | kernel/lang.c:49-58 | `.s` prints the depth and the values, bottom first, as unsigned |
| ForthLaws.OtherWords | kernel/lang.c:92-169 | `clear`, `mem`, `words`, `bye` and `exit`; any word that is none of them all and no number is reported as unknown |
| ForthLaws.NumberWord | kernel/lang.c:162-165 | digits, with a plus sign or without, go on top as a number, unless the stack is full |
| Decimal.DigitFromRight | kernel/lang.c:49-58 | counted from the right, printed digits are the decimal digits |
| Decimal.DigitCount | kernel/lang.c:49-58 | and there is no leading zero |
| ForthSpec.PostfixRuns | kernel/lang.c:91-171 | the postfix words of an expression leave the old stack untouched and put exactly its value on top |
| ForthSpec.PostfixExact | kernel/lang.c:116-126 | they end as one value if and only if no divisor is zero |
| ForthSpec.EvalIdeal | kernel/lang.c:95-126 | where all results fit in 32 bits the value is the mathematical one |
| ForthSpec.WordsOfJoin | kernel/lang.c:60-76 | words typed with blanks between them are read back one by one |
| ForthSpec.LineRuns | kernel/lang.c:60-171 | from a typed line to the value on the stack |
| Forth.Session.Push | kernel/lang.c:25-31 | pushes, or refuses a full stack |
| Forth.Session.Pop | kernel/lang.c:17-23 | pops, or refuses an empty stack |
| Forth.Session.IsNumber | kernel/lang.c:33-47 | accepts exactly an optional sign and one or more digits |
| Forth.Session.Atoi | kernel/string.c:66-87 | for every text: blanks, a sign, the digits' 32-bit value, whatever follows |
| ForthSpec.AtoiNumber | kernel/lang.c:33-47 | on the words taken for numbers that is the number |
| Forth.Session.Binary | kernel/lang.c:95-126 | a binary word, underflow and zero divisor included |
| Forth.Session.RunWord | kernel/lang.c:92-169 | the dispatch of one word |
| Forth.LineBuffer.NextTok | kernel/lang.c:60-76 | finds the next word, ends it in place with a NUL and leaves the rest of the line intact |
| Forth.Session.RunLine | kernel/lang.c:91-171 | the words of a line buffer are run in order, until the session is left |

## Left out

- Hardware: `kernel/disk.c`, `idt.c`, `tss.c`, `timer.c`, `mouse.c`, port I/O, the boot code and the virtual-8086 monitor. The disk is a sequence of sectors whose transfers may fail at any time; a failed write leaves each sector it aimed at old or new.
- `kernel/fat32.c`, `kernel/vfs.c`, `kernel/shell.c`, `kernel/script.c`, `kernel/memory.c` and the graphical user interface are not part of this model.
- The root holds 128 entries on disk, but the code looks at the first 32 only; so does the model.
- `fs_list_entry`, `fs_is_dir` and the root-only `find_entry` repeat the modelled listing and lookup.
- CosInterp.Interp.ExecuteStatement: function definitions and calls of defined functions are left out; a `def` line does nothing, and a call of an undefined name gives 0.
- CosInterp.Interp.RunScript: the same, for scripts that define functions.
- CosInterp.Interp.SetValue: a name longer than 15 characters runs past its table field in the source; the model keeps the whole name, and the theorems about printed programs use names of at most 15.
- CosyPy `input()` takes numbers from a sequence and gives 0 when it is used up.
- CosRefine.ScriptActs: asks for loops without a loop inside and with at most 16 lines, unless they are skipped; `CosNested` says what one loop inside another does outside ifs, `CosEdges.LongBody` that the lines after the sixteenth are dropped.
- 32-bit overflow is modelled as two's-complement wrap-around, and so is the quotient of the least integer by -1, which traps on the processor.
- Context switching, the initial stack image, names, priorities and tick totals of processes are left out: a switch is a change of the current slot.
- Scheduler.RunPids: says nothing beyond the wrap of the 32-bit PID counter.
- The choice between framebuffer and back buffer is left out: both are the same array of bytes.
- The keyboard's scan-code translation is left out; the handler is one atomic enqueue, and there is one reader.
- Editor.Session.constructor: asks for a text of at most 4095 characters; what the source does with 4096 is outside the model (`EditorSpec.OpenFits`).
- Drawing and status messages of the editor are left out; whether a file write succeeds is a parameter of the key that asks for it.
