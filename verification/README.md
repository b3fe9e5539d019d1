# A small file system, a print spooler and a shell history, verified

This project models three programs of the repository and proves what they are for. To verify it, run `dafny verify
dfyconfig.toml` with Dafny 4.11.

* **The simple file system.** Files of bytes on an emulated block disk: a first-fit bitmap, an inode table, twelve
  direct pointers and one pointer block per file, a root directory and a descriptor table. `FileSystem.dfy` holds the
  object with its arrays and every branch of write and read; `Layout.dfy` says when a volume is consistent,
  `Transfer.dfy` carries one write from logical block to logical block, `WriteCall.dfy` and `ReadCall.dfy` close a
  call, and `FlatMachine.dfy` with `Runs.dfy` state the outcome: whatever legal sequence of calls is made, the results
  and the files are those of a list of flat byte sequences, the volume stays consistent, memory and disk stay in step,
  and blocks are conserved and handed out first fit. `Image.dfy` says what is on the disk in bytes, and `Failures.dfy`
  reaches the states in which the code goes wrong. Block size, pointers per block, disk size and the sizes of the
  metadata regions are symbolic; `WriteCall.SourceSized` shows that the numbers fixed in the source are an instance.
* **The print spooler.** `Spooler.dfy` is a transition system whose steps are single semaphore operations and single
  accesses to the shared memory, for any number of clients and one printer. It proves mutual exclusion, conservation
  of tokens, slot safety, announcing and printing exactly once in the order of the claims, absence of deadlock, and that
  every run that cannot go on has the same length and has printed everything. `SharedMemory.dfy` is the segment itself,
  updated in place.
* **The shell's history ring.** `History.dfy` proves that ten slots indexed by command number agree with an unbounded
  log for the last nine commands, with the counter rolled back on a refused recall.

## Where the code does less than it seems to

* **Clearing the last block.** A write that crosses a block boundary does not read its last block first, so it clears
  the rest of that block (file system/filesystem/sfs_api.c:566-573). `FlatFile.Overwrite` is the exact effect,
  `FlatFile.SpliceIff` says exactly when it is the plain replacement, and `Failures.ClearingLoses` is a run from a fresh
  disk in which it is not.
* **Crossing into the indirect blocks.** A later write from a direct block into an indirect one keeps the volume
  consistent exactly when the file has no pointer block yet and the write ends past the first indirect block: the
  pointer block is only taken in a loop that does not run when the write ends in logical block 13, counting from 1
  (file system/filesystem/sfs_api.c:710-716), and a file that already has one starts over with an empty table.
  In the first case the table goes over the superblock, which is also where a read looks for it
  (file system/filesystem/sfs_api.c:344, 368, 381): the superblock is lost and the file still reads right. In the
  second the blocks after the write are forgotten and read as the superblock. `WriteCall.WriteMeets` is what `Write` is
  proved to meet, `WriteCall.SurvivesIff` says from the state before the call when the file survives, and
  `WriteCall.SoundFails` gives concrete numbers. `Failures.CrossingBreaks` and `Failures.ReuseLoses` reach both cases
  from a fresh disk and read the file back. Other files are unharmed by that call.
* **The tenth recall.** The shell accepts the number of the tenth command back, whose slot it has just overwritten
  (simple shell/assignment1.c:177): `History.IntendedIff`, and `History.BlankRecall` for a session that gets there.
* **The tenth file.** Opening a tenth new name returns a descriptor that names no inode
  (file system/filesystem/sfs_api.c:209-236): `Directory.OpenMeets`, reached in `Failures.TenthFile`.
* **Reloading.** Creating a file stores the directory but not the inode table
  (file system/filesystem/sfs_api.c:217-221), and a later write inside one direct block that does not grow its file
  stores nothing but that block (file system/filesystem/sfs_api.c:590-605). Every other write stores the table for all
  files, so a reload gives back the state exactly when there has been such a write, to any file, since the last file was
  created: `Directory.ReloadIff` with `FlatMachine.AllStoredIff`. Otherwise the files that are not stored lose their
  inodes and the others stay: `Directory.ReloadGives`, reached in `Failures.ReloadForgets` and
  `Failures.ReloadKeepsOne`.

## Model

| member | source | states |
|---|---|---|
| DiskEmu.Disk.constructor | file system/filesystem/disk_emu.c:29-63 | a fresh disk is all zero, block by block |
| DiskEmu.Disk.ReadBlocks | file system/filesystem/disk_emu.c:96-137 | in range, the bytes of the blocks in order and their number; out of range, -1 and the buffer untouched |
| DiskEmu.Disk.WriteBlocks | file system/filesystem/disk_emu.c:142-178 | in range, exactly those blocks replaced and no other; out of range, -1 and no effect |
| DiskEmu.ReadAfterWrite | file system/filesystem/disk_emu.c:96-178 | blocks written and read again give back the same bytes |
| DiskEmu.ReadFrame | file system/filesystem/disk_emu.c:96-137 | a read depends on nothing but the blocks read |
| DiskEmu.WriteRangeSteps | file system/filesystem/disk_emu.c:160-170 | a write of many blocks is a write of the first ones followed by a write of the last |
| DiskEmu.ChopSplice | file system/filesystem/disk_emu.c:157-168 | bytes written at a block's file position change that block range and nothing else |
| FreeMap.Bitmap.constructor | file system/filesystem/bitmap.c:13 | every index starts free |
| FreeMap.Bitmap.ForceSetIndex | file system/filesystem/bitmap.c:22-31 | exactly the one index leaves the free set |
| FreeMap.Bitmap.GetIndex | file system/filesystem/bitmap.c:33-48 | terminates when the free set is not empty, returns its minimum and removes exactly that |
| FreeMap.Bitmap.RmIndex | file system/filesystem/bitmap.c:50-60 | exactly the one index joins the free set |
| FreeMap.Bitmap.GetMany | file system/filesystem/test.c:13-41 | a sequence of calls: the least free indices, in increasing order, and exactly those leave the free set |
| FreeMap.Consecutive | file system/filesystem/test.c:13-21 | where everything from an index on is free, the indices handed out are consecutive |
| FreeMap.UseRemoves | file system/filesystem/bitmap.c:19-20 | clearing a bit removes one index from the free set, for every other index no change |
| FreeMap.FreeAdds | file system/filesystem/bitmap.c:16-17 | setting a bit adds one index to the free set, for every other index no change |
| FreeMap.LeastFree | file system/filesystem/bitmap.c:36-47 | the lowest bit of the first non-zero byte is the least free index |
| FreeMap.Ffs | file system/filesystem/bitmap.c:42 | the lowest set bit, counted from 1: it is set and all lower ones are clear |
| Codec.RoundTrip | file system/filesystem/sfs_api.c:748 | a pointer table written as words reads back the same, whatever follows it |
| Codec.DecodeZeros | file system/filesystem/sfs_api.c:711-716 | a block of zeros reads as an empty pointer table |
| Metadata.TableRoundTrip | file system/filesystem/sfs_api.c:77-79 | the inode table survives being written as words |
| Metadata.TableReload | file system/filesystem/sfs_api.c:129-141 | what is read from the table blocks is the table that was written there |
| Metadata.EntriesRoundTrip | file system/filesystem/sfs_api.c:81-83 | directory entries survive being written as bytes |
| Metadata.RootReload | file system/filesystem/sfs_api.c:129-141 | what is read from the directory blocks is the directory that was written there |
| Layout.BeyondIs | file system/filesystem/sfs_api.c:429-434 | owning `k` blocks one ahead of the size means `k` is the size divided by the block size, plus one |
| Layout.GrowKeepsAlloc | file system/filesystem/sfs_api.c:445 | handing a free block to a file keeps extents disjoint, outside the metadata, and the used bits exactly accounted for |
| Layout.AvailTake | file system/filesystem/bitmap.c:44-45 | taking a block leaves one fewer |
| Layout.FirstFitData | file system/filesystem/bitmap.c:33-48 | the least free block taken as the next data block keeps blocks in first-fit order |
| Layout.FirstFitTable | file system/filesystem/sfs_api.c:493-501 | so does the least free block taken as the pointer block, between the last direct block and the first indirect one |
| Layout.SeenIs | file system/filesystem/sfs_api.c:344-402 | a read looks for the pointer table in block `indirectptr` without asking whether there is one; of a consistent inode it still sees exactly the content of the blocks the file owns |
| FlatFile.OverwriteToEnd | file system/filesystem/sfs_api.c:566-573 | a write reaching the end of the file leaves the old bytes before it, then the buffer |
| FlatFile.SpliceIff | file system/filesystem/sfs_api.c:566-573 | a write is a plain replacement if and only if it stays in its block, reaches the end of the file, or clears only zeros |
| FlatFile.SpliceFails | file system/filesystem/sfs_api.c:566-573 | with the block size of the source: 1025 bytes over a file of 2048 clear a byte they were not given |
| FlatFile.OverwriteChunks | file system/filesystem/sfs_api.c:436-753 | writing in two chunks is writing once, for every split point, although each chunk clears the end of its block |
| FlatFile.ForgottenIff | file system/filesystem/sfs_api.c:680-753 | when the blocks after a write read as another block, nothing is lost if and only if the file had the same bytes there |
| Transfer.HeadTarget | file system/filesystem/sfs_api.c:542-543 | the head piece: new bytes to the end of the first block, old bytes before them |
| Transfer.MiddlePiece | file system/filesystem/sfs_api.c:551-553 | the middle piece's source position, and that it is exactly the block the file must hold |
| Transfer.TailPiece | file system/filesystem/sfs_api.c:566-567 | the tail piece's source position and length, and that the rest of the block is cleared |
| Transfer.FreshPiece | file system/filesystem/sfs_api.c:441-444 | a whole block of a first write |
| Transfer.FreshTail | file system/filesystem/sfs_api.c:454-456 | the last block of a first write |
| Transfer.StepOver | file system/filesystem/sfs_api.c:559 | storing into a block the file has keeps the progress invariant |
| Transfer.StepAppend | file system/filesystem/sfs_api.c:554-559 | storing into a newly taken block keeps it: pointers, ownership, free set, contents and the count of blocks |
| Transfer.StepTable | file system/filesystem/sfs_api.c:711-716 | taking a pointer block keeps it, and that block is still zero |
| Transfer.StillFree | file system/filesystem/sfs_api.c:445-448 | a block free during a write was free, and zero, before it |
| Transfer.RoomForData | file system/filesystem/sfs_api.c:445 | with room counted in advance there is a free block each time one is needed |
| Transfer.ContentStored | file system/filesystem/sfs_api.c:418-757 | when all pieces are stored the file reads as the overwritten flat file, byte for byte |
| Transfer.ExtentRead | file system/filesystem/sfs_api.c:418-757 | the pointers in the inode and the pointer block spell out exactly the blocks the file owns |
| Transfer.BystanderKept | file system/filesystem/sfs_api.c:418-757 | any other file keeps its blocks, its consistency and its bytes |
| Transfer.Finish | file system/filesystem/sfs_api.c:743-752 | after the size and table are recorded the volume is consistent and owned as the write recorded |
| Transfer.NoPointerBlock | file system/filesystem/sfs_api.c:710-748 | a write ending in the first indirect block without a pointer block leaves an inconsistent inode |
| Transfer.BlockLost | file system/filesystem/sfs_api.c:683-748 | a crossing write over an existing pointer block loses blocks: neither free nor owned |
| Transfer.EmptyTable | file system/filesystem/sfs_api.c:711-716 | a newly taken pointer block reads as an empty table |
| State.InStepKept | file system/filesystem/sfs_api.c:73-83 | rewriting table and bitmap keeps memory and disk in step |
| State.FormatGood | file system/filesystem/sfs_api.c:84-128 | a formatted disk is consistent, in step, and has no files |
| State.AppendStep | file system/filesystem/sfs_api.c:554-564 | one block taken, recorded and stored, with everything else in the state |
| State.OverStep | file system/filesystem/sfs_api.c:559-563 | one block stored in place, with everything else in the state |
| State.TableStep | file system/filesystem/sfs_api.c:711-716 | the pointer block taken, with everything else in the state |
| State.EndDirect | file system/filesystem/sfs_api.c:579-604 | the end of a write within the direct blocks meets the finished state |
| State.EndIndirect | file system/filesystem/sfs_api.c:743-752 | the end of a write past the direct blocks meets the finished state |
| State.EndSpoilt | file system/filesystem/sfs_api.c:743-752 | the end of a write outside the domain: the volume is inconsistent |
| WriteCall.JobReady | file system/filesystem/sfs_api.c:418-434 | every write into a consistent volume with room can be carried out |
| WriteCall.JobShape | file system/filesystem/sfs_api.c:436-680 | which branch a write takes, and what that branch may rely on |
| WriteCall.FileKnown | file system/filesystem/sfs_api.c:428-434 | the one-ahead layout: a file owns blocks 0 to size/B, with non-zero pointers exactly on that prefix, and a pointer block exactly when it needs one |
| WriteCall.WriteDone | file system/filesystem/sfs_api.c:418-757 | inside the domain: consistent, in step, and the file is the flat file after the write |
| WriteCall.OthersKept | file system/filesystem/sfs_api.c:418-757 | inside the domain or not, any other file is untouched |
| WriteCall.BlocksTaken | file system/filesystem/sfs_api.c:418-757 | a finished write has taken exactly the number of blocks it asked for beforehand, first fit |
| WriteCall.SoundFits | file system/filesystem/sfs_api.c:418-757 | a write inside the domain gives its file the least free blocks, in order |
| WriteCall.GoodReadable | file system/filesystem/sfs_api.c:261-416 | a file of a consistent system can be read, and a read sees its content |
| WriteCall.SpoiltDone | file system/filesystem/sfs_api.c:680-753 | outside the domain: not consistent; the superblock overwritten if and only if there was no pointer block for the table; the file reads as the flat file up to the block the write ends in, and as the superblock after it; the blocks asked for are taken; the other files are untouched, and every file can still be read |
| WriteCall.SpoiltMaps | file system/filesystem/sfs_api.c:743-753 | even then the bitmap and the directory are on disk as they are in memory |
| WriteCall.SurvivesIff | file system/filesystem/sfs_api.c:680-753 | the file written reads as the flat file if and only if the write is inside its domain or the file had the same bytes as the superblock in its blocks after the write, which can be told before the call; when the superblock is lost, the file is not |
| WriteCall.NotSuper | file system/filesystem/sfs_api.c:29-35 | a pointer table is never mistaken for the superblock |
| WriteCall.FoundByte | file system/filesystem/sfs_api.c:680-753 | a byte in a block up to the one a crossing write ends in is the one the flat file would have |
| WriteCall.SpoiltPointer | file system/filesystem/sfs_api.c:680-748 | the pointers a read finds after a write outside the domain: the blocks of the file up to the end of the write, wherever the table has gone, and then zeros |
| WriteCall.RecordedAfter | file system/filesystem/sfs_api.c:584-604 | every write stores the inode table, except one inside a direct block that does not grow the file |
| WriteCall.QuietIs | file system/filesystem/sfs_api.c:590-605 | those writes, told from the file alone |
| WriteCall.CallMeets | file system/filesystem/sfs_api.c:418-757 | consistency afterwards if and only if the write was inside the domain, which the caller can test beforehand; which inodes are on disk, and that bitmap and directory are; which blocks are taken; what becomes of the superblock and of the file outside the domain |
| WriteCall.SoundFails | file system/filesystem/sfs_api.c:710-748 | concrete writes outside the domain, and one just inside it |
| WriteCall.SourceSized | file system/filesystem/sfs_api.c:12-24 | the constants of the source are one instance of the model |
| Sfs.FileSystem.constructor | file system/filesystem/sfs_api.c:84-128 | formatting gives a consistent, empty file system with its superblock in place: inode 0 points at the blocks of the directory and at nothing else, every other inode, slot and descriptor is unused, exactly the metadata blocks are taken, and all other blocks are zero |
| Sfs.FileSystem.GetIndex | file system/filesystem/bitmap.c:33-48 | the least free index, taken; a block of the disk if and only if one is free |
| Sfs.FileSystem.UpdateTable | file system/filesystem/sfs_api.c:77-79 | the inode table on disk is the one in memory; no other block changes |
| Sfs.FileSystem.UpdateBitmap | file system/filesystem/sfs_api.c:73-75 | the bitmap on disk is the one in memory; no other block changes |
| Sfs.FileSystem.UpdateRoot | file system/filesystem/sfs_api.c:81-83 | the directory on disk is the one in memory; no other block changes |
| Sfs.FileSystem.PatchFirst | file system/filesystem/sfs_api.c:541-548 | the first block of a write keeps its other bytes |
| Sfs.FileSystem.WriteFreshDirect | file system/filesystem/sfs_api.c:436-473 | a first write into direct blocks ends finished and returns its length |
| Sfs.FileSystem.WriteFreshIndirect | file system/filesystem/sfs_api.c:476-529 | a first write needing a pointer block ends finished and returns its length |
| Sfs.FileSystem.WriteDirectSpan | file system/filesystem/sfs_api.c:539-588 | several direct blocks |
| Sfs.FileSystem.WriteDirectOne | file system/filesystem/sfs_api.c:590-605 | one direct block |
| Sfs.FileSystem.WriteIndirectSpan | file system/filesystem/sfs_api.c:609-656 | several indirect blocks |
| Sfs.FileSystem.WriteIndirectOne | file system/filesystem/sfs_api.c:657-678 | one indirect block |
| Sfs.FileSystem.WriteCrossing | file system/filesystem/sfs_api.c:680-753 | direct into indirect: finished inside the domain, spoilt outside it |
| Sfs.FileSystem.Write | file system/filesystem/sfs_api.c:418-757 | returns the length; all stays consistent if and only if the write is inside its domain, and then the file is the flat file after the write; outside it, what the file reads as and what becomes of the superblock; no other file changes; exactly as many blocks as asked for beforehand are taken, and they are the least free ones |
| Sfs.FileSystem.Read | file system/filesystem/sfs_api.c:261-416 | the bytes the pointers lead to from the read position on, as many as asked for or as there are, whether the volume is consistent or not; only that position moves; nothing when the file is closed |
| ReadCall.BlockSlice | file system/filesystem/sfs_api.c:302-307 | a run of bytes inside one block, zeros for a block that is not there, is the same run of the file |
| ReadCall.TableSeen | file system/filesystem/sfs_api.c:344-402 | the table read from block `indirectptr`, block 0 included, holds the pointers past the direct ones |
| ReadCall.PieceRead | file system/filesystem/sfs_api.c:302-307 | one piece copied extends what has been read by the next bytes of the file |
| ReadCall.TailRest | file system/filesystem/sfs_api.c:320-361 | both ways the code computes the tail's length are right |
| Sfs.FileSystem.Seek | file system/filesystem/sfs_api.c:759-769 | both positions at the given place, or at the end of the file |
| Sfs.FileSystem.Close | file system/filesystem/sfs_api.c:246-259 | 0 and closed, or -1 when it was closed already |
| Sfs.FileSystem.Open | file system/filesystem/sfs_api.c:178-242 | refused, reopened with the same descriptor at the start for reading and at the end for writing, created in the next slot, inode and descriptor, or, for a tenth, a descriptor naming no inode |
| Sfs.FileSystem.Reload | file system/filesystem/sfs_api.c:129-141 | descriptors, bitmap, directory and blocks stay; an inode comes back as it was if it is stored or belongs to no file, and unused otherwise; a stored file keeps its content |
| Sfs.FileSystem.ReleaseDirect | file system/filesystem/sfs_api.c:799-806 | every direct block cleared and freed, every direct pointer 0 in memory, the bitmap on disk, no other block, bit or inode changed |
| Directory.CursorMoved | file system/filesystem/sfs_api.c:759-769 | moving a position or flag of one descriptor changes that file only |
| Directory.CreatedFile | file system/filesystem/sfs_api.c:208-236 | creating a file keeps everything consistent and adds one empty file, whose inode is not on disk |
| Directory.ReloadIff | file system/filesystem/sfs_api.c:129-141 | a reload gives back the whole state if and only if every file's inode has been stored, which the flat machine keeps account of call by call; a written file's always has, and one that has not is unused after the reload |
| Directory.ReloadGives | file system/filesystem/sfs_api.c:129-141 | inode by inode and file by file: what a reload gives back |
| Directory.OnDisk | file system/filesystem/sfs_api.c:134-139 | what the metadata blocks of a consistent system hold |
| Directory.VolumeFrame | file system/filesystem/sfs_api.c:217-221 | metadata rewrites leave consistency and contents alone |
| Directory.ReleaseKeepsAlloc | file system/filesystem/sfs_api.c:799-806 | after the release loop blocks are conserved and free blocks are zero; only blocks behind a pointer block are lost |
| Directory.ReleaseOther | file system/filesystem/sfs_api.c:799-806 | releasing one file leaves the others' bytes alone |
| Counting.Conserved | file system/filesystem/sfs_api.c:112-127 | metadata, free blocks and owned blocks add up to the disk |
| FlatMachine.RunKeepsNames | file system/filesystem/sfs_api.c:178-242 | over any run names stay distinct and a file keeps its place |
| FlatMachine.ReopenReturns | file system/filesystem/sfs_api.c:186-205 | opening a name again after any run returns its first descriptor |
| FlatMachine.Opened | file system/filesystem/sfs_api.c:178-242 | a long name is refused, an open file stays as it is, a new name gives an empty open file after the others |
| FlatMachine.ReopenReads | file system/filesystem/sfs_api.c:192-202 | closed and opened again, a file is on its descriptor and is read from its beginning |
| FlatMachine.ReopenAppends | file system/filesystem/sfs_api.c:192-202 | written straight after that, it grows by what is written |
| FlatMachine.ClosedReads | file system/filesystem/sfs_api.c:246-268 | a closed file reads as nothing and cannot be closed again; its contents stay |
| FlatMachine.SeekThen | file system/filesystem/sfs_api.c:759-769 | after a seek, reading and writing begin at the place asked for, or at the end |
| FlatMachine.WriteLeaves | file system/filesystem/sfs_api.c:418-757 | a write changes the data, the position and nothing else of its file, and nothing but the stored mark of the others; which writes store the inode table |
| FlatMachine.StoredIff | file system/filesystem/sfs_api.c:129-141 | a file's inode is on disk after a run if and only if it was before, or some call stored the inode table |
| FlatMachine.CreatedNotStored | file system/filesystem/sfs_api.c:217-221 | a created file's inode is on disk after a run if and only if some later call stored the inode table |
| FlatMachine.AllStoredIff | file system/filesystem/sfs_api.c:129-141 | once the last file has been created, all inodes are on disk at the end of the run if and only if some later call stored the inode table |
| FlatMachine.RunElsewhere | file system/filesystem/sfs_api.c:178-769 | a run that never names a file leaves its contents, size and positions exactly as they were |
| FlatMachine.WriteSplit | file system/filesystem/sfs_test.c:111-133 | if a run of chunked writes is allowed, the one large write is allowed too and leaves the same files |
| FlatMachine.ReadSplit | file system/filesystem/sfs_test.c:162-191 | a run of chunked reads is always allowed, returns the bytes of the one large read and leaves the same files |
| FlatMachine.ReadBack | file system/filesystem/sfs_test.c:111-191 | what is written is what is read back from where it was written |
| Runs.FileBlocks | file system/filesystem/sfs_api.c:428-434 | a file takes the blocks its size says, one ahead |
| Runs.SpaceLeft | file system/filesystem/bitmap.c:22-48 | at every point of a run free blocks, metadata and the blocks of the files make up the disk |
| Runs.LegalWrite | file system/filesystem/sfs_api.c:418-757 | a write the flat machine allows has the room it needs and is inside the domain |
| Runs.FinalBlocks | file system/filesystem/sfs_api.c:428-434 | a write needs no more blocks than its file takes afterwards |
| Runs.NamesDistinct | file system/filesystem/sfs_api.c:178-242 | names, inodes and descriptors correspond one to one, positions are inside the files |
| Runs.Execute | file system/filesystem/sfs_api.c:178-769 | each allowed call returns and leaves what the flat machine says |
| Runs.Run | file system/filesystem/sfs_api.c:84-769 | every allowed sequence of calls does, and the system is consistent at its end |
| Runs.FormatAndRun | file system/filesystem/sfs_api.c:84-769 | the same from a fresh disk; superblock and inode 0 are never touched, and a reload would give back everything if and only if the history of calls stored every inode |
| Runs.SmallRun | file system/filesystem/sfs_test.c:111-191 | a concrete allowed run: open, write, rewind, read back |
| Image.SuperFields | file system/filesystem/sfs_api.c:29-35 | the five 64-bit fields of the superblock on disk, in numbers |
| Image.SuperImage | file system/filesystem/sfs_api.c:29-35 | the superblock of the disk of the source, byte for byte |
| Image.InodeOnDisk | file system/filesystem/sfs_api.c:77-79 | where each field of each inode is in the table blocks |
| Image.EntryOnDisk | file system/filesystem/sfs_api.c:81-83 | where the inode number and the name of each directory slot are in the directory blocks |
| Image.FormatBits | file system/filesystem/bitmap.c:19-31 | the bytes of a bitmap in which exactly the first four blocks are taken |
| Image.FreshImage | file system/filesystem/sfs_api.c:84-128 | the disk after formatting: superblock, inode table, bitmap and directory in blocks 0 to 3, and zeros |
| Image.FirstFile | file system/filesystem/sfs_api.c:436-473 | the first file written on it: inode 1, descriptor 0, its data in block 4 |
| Failures.CrossingBreaks | file system/filesystem/sfs_api.c:710-748 | from a fresh disk of the size of the source, an allowed run and one more byte leave an inconsistent volume without its superblock; the file reads back right |
| Failures.ReuseNeeds | file system/filesystem/sfs_api.c:683-748 | such a write takes new blocks for every indirect block it reaches, although the file has some |
| Failures.ReuseLoses | file system/filesystem/sfs_api.c:683-748 | from a fresh disk, an allowed run and a crossing write over an existing pointer block leave an inconsistent volume, and a file that reads as the superblock from the block after the write on |
| Failures.ClearingLoses | file system/filesystem/sfs_api.c:566-573 | from a fresh disk, an allowed run whose last write loses bytes after it |
| Failures.ReloadForgets | file system/filesystem/sfs_api.c:129-141 | from a fresh disk, a file opened and then a reload: in the directory, but its inode is unused |
| Failures.ReloadKeepsOne | file system/filesystem/sfs_api.c:129-141 | from a fresh disk, a written file and one only created, then a reload: the first reads back, the second has no inode |
| Failures.OpensRun | file system/filesystem/sfs_api.c:208-236 | nine names can be opened one after the other |
| Failures.TenthFile | file system/filesystem/sfs_api.c:209-236 | from a fresh disk, nine files and a tenth: a descriptor naming no inode |
| Spooler.InitInv | Print Spooler/printer.c:56-67 | the initial state satisfies the invariant |
| Spooler.StepKeepsInv | Print Spooler/client.c:51-77 | every step of every process keeps it |
| Spooler.RunKeepsInv | Print Spooler/client.c:51-77 | so does every interleaving |
| Spooler.ReadWhole | Print Spooler/printer.c:82-84 | both halves of the slot the printer reads were stored by the client whose turn it is |
| Spooler.PrintedInOrder | Print Spooler/client.c:57-76 | the jobs read are those of the claims, in order: none lost, repeated or torn |
| Spooler.AnnouncedInOrder | Print Spooler/printer.c:80-103 | what the printer announces in any run, with the pages it sleeps for, are the jobs of the claims in order, each once; in a run that cannot go on, all of them |
| Spooler.PrintedRight | Print Spooler/printer.c:89-103 | from the announcement to the end of the sleep the printer has the number, the pages and the slot of the client whose turn it is |
| Spooler.PutRight | Print Spooler/client.c:64-73 | when a client says where it has put its job, both halves of that slot are its own |
| Spooler.MutualExclusion | Print Spooler/client.c:58-75 | at most one process is between waiting for the mutex and posting it |
| Spooler.SlotSafety | Print Spooler/client.c:60-68 | claimed and given-back counts differ by at most the size, the indices are those counts on the ring, and a client stores in no slot that is unread or being printed |
| Spooler.TokensConserved | Print Spooler/client.c:57-76 | empty, full, clients in between and a busy printer add up to the slots |
| Spooler.StepsCount | Print Spooler/client.c:51-77 | each step brings the end exactly one step nearer |
| Spooler.StuckOnlyAtEnd | Print Spooler/client.c:51-77 | no deadlock: nobody can move only when all is printed |
| Spooler.EndPrintsAll | Print Spooler/printer.c:130-136 | at the end the jobs read are a permutation of the jobs |
| Spooler.EveryRunEnds | Print Spooler/client.c:51-77 | a run cannot go on if and only if it has nineteen steps a job and one, and then everything has been printed |
| SharedMemory.Spool.constructor | Print Spooler/printer.c:56-67 | starting the printer gives the initial state: no tokens in `full`, all of them in `empty`, both indices 0, every slot -1 |
| SharedMemory.Spool.ClientMoves | Print Spooler/client.c:51-77 | one statement of a client, in place, is one step of the transition system |
| SharedMemory.Spool.PrinterMoves | Print Spooler/printer.c:69-103 | one statement of the printer, in place, is one step; the page count read is the one in the slot, and what it prints next is the job of the claim whose turn it is |
| SharedMemory.Spool.Interleave | Print Spooler/client.c:51-77 | any schedule that can happen runs as the transition system says |
| SharedMemory.Spool.PutAJob | Print Spooler/client.c:51-77 | without interference: one claim, one token from empty to full, and number and pages in the two halves of its slot |
| History.Shell.constructor | simple shell/assignment1.c:291-293 | no commands, every slot empty, ring and log agree |
| History.Shell.FreeHistory | simple shell/assignment1.c:69-74 | exactly one slot cleared |
| History.Shell.StrArgs | simple shell/assignment1.c:166-173 | exactly the current slot stored |
| History.Shell.RunHistory | simple shell/assignment1.c:175-203 | refused with the counter rolled back, or the named entry in the current slot |
| History.Shell.Command | simple shell/assignment1.c:294-350 | a typed line is logged as typed and flagged only if run in the foreground and failed; a number of the last nine replays that command unless it is flagged; the tenth back replays nothing; any other number is refused and the counter rolled back; the ring holds the last nine |
| History.Shell.Session | simple shell/assignment1.c:294-350 | after any session the ring holds the last nine commands slot by slot, and no background command is flagged |
| History.HoldsStill | simple shell/assignment1.c:297-302 | whatever goes in the next place, the last nine commands are still at theirs |
| History.HoldsNext | simple shell/assignment1.c:300-301 | an accepted command is found at its place |
| History.IntendedIff | simple shell/assignment1.c:177-184 | a recall does what is meant if and only if it is not of the tenth command back, or that command is the empty one; no condition on the log |
| History.BackgroundUnflagged | simple shell/assignment1.c:336-350 | over any session no background command gets flagged, whether it failed or not |
| History.BackgroundRecall | simple shell/assignment1.c:186-196 | so a background command of the last nine can always be recalled, and runs in the background again |
| History.WordsTyped | simple shell/assignment1.c:175-203 | whatever runs with words in it was typed as a command at some time |
| History.TenthIsBlank | simple shell/assignment1.c:177-195 | ten commands, then the first again: an empty command runs |
| History.BlankRecall | simple shell/assignment1.c:294-350 | a session from the start that gets there |
| History.LogGrows | simple shell/assignment1.c:177-190 | a number once given to a command is never given to another |
| History.LogSnoc | simple shell/assignment1.c:294-350 | one more input is one more turn of the loop |

## Left out

- Disk full: a write asks for enough free blocks beforehand (`WriteCall.Room`). The bitmap covers 1024 blocks (file system/filesystem/bitmap.c:8) but the disk has 512 (file system/filesystem/sfs_api.c:14), so without them `get_index` returns a number past the disk, as `Sfs.FileSystem.GetIndex` says, and the write of that block fails; what the rest of the call makes of that is not modelled.
- Local pointer tables: the tables on the stack are taken as zero-filled; a first write only needs that of the entries past the file.
- Negative lengths and positions: lengths, seek positions and descriptors are natural numbers, and descriptors are those that open has returned.
- Empty names, and names containing a zero byte, are not passed to open: an empty name matches an unused directory slot and reads past the inode table.
- Names in the directory: the source stores pointers; here the characters are stored, in 20 bytes, so a directory entry takes 24 bytes instead of 16. Reloading is within one process.
- Sizes of memory transfers: buffers are exactly the blocks moved; the 2-block memsets, the 1024-byte transfers of the 128-byte bitmap and structure padding are not modelled.
- Words are 32 bits and every number stored is proved to fit; the sign of the source's `int` fields is not modelled.
- The unused inode fields (mode, link count, owner) are stored as 0.
- The indirect part of `sfs_remove` (file system/filesystem/sfs_api.c:807-824), and its directory and descriptor bookkeeping: only the direct release loop is modelled.
- `sfs_getnextfilename` and `sfs_getfilesize`: linear look-ups.
- Crashes between two disk writes: the claims are about the state between calls.
- Real disk files, latency, retries and failures: the disk is an array.
- Shared-memory set-up, signals, sleeping and messages of the spooler; a look at a semaphore's value is one step that changes nothing else. There is one printer.
- The shell's processes, redirection, background job table, builtins and terminal: whether a line is a builtin, what its first word is as a number, and whether running it fails are inputs. Lines have at least one word and fit the 20 argument slots.
- The display of the history.
