# FAT16 image interpreter, modelled in Dafny

The repository holds a small Python interpreter for FAT16 disk images in two
copies: an earlier draft (`Soruce/FAT16Interpreter.py`) and a later revision
(`Source/FAT16Interpreter.py`). Both read the boot-sector geometry, follow
cluster chains through the FAT, walk the root directory, and print the
volume label, folder names, file names and the first line of each file.

This project models the byte-level engine of both copies over one immutable
disk buffer (`seq<byte>`):

- `Outcomes`, `Bytes`, `HexText`: the Python primitives the engine relies
  on. These are exception outcomes, slicing with Python's negative-index
  wrap and clamping, `struct.unpack('<H')` and `'<b'`, ASCII decoding,
  `rstrip`, `bytes.index(10)`, `hex()`, and string `<=`.
- `Boot`: `initialize_variables`, the five BPB fields and the three derived
  offsets. BPB_BytsPerSec is at offset 11, BPB_RsvdSecCnt at 14,
  BPB_NumFATs at 16, BPB_RootEntCnt at 17 and BPB_FATSz16 at 22. These are
  the offsets given in the "Boot Sector and BPB" section of Microsoft's FAT
  File System Specification.
- `Fat`: `find_next_node_index` (identical in both copies), plus a numeric
  reference definition of the cluster chain that both chain builders follow.
- `Trace`: what a run leaves behind: the printed lines as events (`Label`,
  `Folder`, `File`, `Excerpt`), the `linked_list` memo, `disk_name`, and
  whether the run completed or raised. Exceptions are never caught in
  either copy, so a run stops at the first one.
- `Interpreter` and `InterpreterFacts`: the later revision and its
  properties.
- `Draft` and `DraftFacts`: the earlier draft and its properties.

Behaviour that the model follows as written:

- Chain building follows an entry of 0xFFF8 as a successor. The "FAT Data
  Structure" section of the FAT specification makes every value from
  0xFFF8 up an end-of-chain mark. Both copies compare `hex(v) <= '0xfff8'`
  as strings; `HexText.HexLexOrder` proves this agrees with `v <= 0xFFF8`
  for every 16-bit value.
- An attribute byte of 0x00 skips that one entry; it does not end the scan.
- A folder's first 64 bytes are skipped on every cluster read.
- The later revision keys a one-cluster start by its int and every link of
  a longer chain by `hex(cluster)`. Its `read_cluster` then looks the start
  up as an int after the first cluster. So a file or folder whose start's
  FAT entry is not 0xFFFF never completes. Once its chain is built, the
  first cluster is still read: a file's first line is printed, or a folder's
  first cluster is scanned. Then the lookup raises `KeyError` (`MissingKey`),
  unless the read raised first (`InterpreterFacts.MultiClusterStartFails`).
- The draft reads a cluster only when the start's FAT entry is 0xFFFF. It
  places clusters at a 512-byte stride whatever the sector size. Its root
  scan ignores files, and its folder scan ignores everything except files.

Neither copy detects FAT cycles. A `fuel` parameter bounds chain building
in both copies, and it bounds the recursive walk in the later revision.
Running out of fuel is the `OutOfFuel` outcome, which the source does not
have. The draft's walk needs no fuel: it is at most root → folder → file.

## Model

| member | source | states |
|---|---|---|
| Bytes.Slice | Source/FAT16Interpreter.py:59 | A Python slice never exceeds the buffer. Within bounds it is the plain subsequence, and element k of a slice from a non-negative start is `s[lo + k]`. |
| Bytes.U16 | Source/FAT16Interpreter.py:105 | `struct.unpack('<H')` succeeds exactly on two bytes, with struct.error otherwise. The value is in [0, 0xFFFF] with low byte `s[0]` and high byte `s[1]`. |
| Bytes.S8 | Source/FAT16Interpreter.py:113 | `struct.unpack('<b')` succeeds exactly on one byte. The value is in [-128, 127] and congruent to the byte mod 256. |
| Bytes.Decode | Source/FAT16Interpreter.py:31 | Decoding succeeds exactly on ASCII bytes and returns them unchanged; anything else raises a decode error. |
| Bytes.RStrip | Source/FAT16Interpreter.py:39 | The result is a prefix of the input that does not end in whitespace, and everything stripped is whitespace. |
| Bytes.LineEnd | Source/FAT16Interpreter.py:90 | `index(10)` succeeds exactly when the buffer holds a newline, and returns the position of the first one. |
| HexText.HexRoundTrip | Source/FAT16Interpreter.py:99 | Parsing `hex(v)` back gives v. |
| HexText.HexInjective | Source/FAT16Interpreter.py:99 | `hex(v) == hex(w)` exactly when v == w. |
| HexText.HexLexOrder | Source/FAT16Interpreter.py:98 | For a 16-bit v, the string test `hex(v) <= '0xfff8'` holds exactly when v <= 0xFFF8. |
| HexText.HexSentinel | Source/FAT16Interpreter.py:71-72 | `hex(v)` is '0xffff' only for 0xFFFF, and '0xfff7' only for 0xFFF7. |
| Boot.Parse | Source/FAT16Interpreter.py:108-118 | Parsing succeeds exactly on at least 24 bytes. Each field is the little-endian reading at its offset, with the FAT count a signed byte. FAT start = reserved·sector size, root start = FAT start + copies·FAT size·sector size, and data start = root start + 32·entries. |
| Boot.RegionsOrdered | Source/FAT16Interpreter.py:115-118 | With byte 16 below 0x80, FAT start ≤ root start ≤ data start. |
| Boot.ParseBootSector | Soruce/FAT16Interpreter.py:93-103 | A boot sector written from given field values parses back to them, with the FAT count sign-extended. |
| Fat.NextCluster | Source/FAT16Interpreter.py:103-106 | The lookup succeeds exactly when the two bytes at FAT start + 2c exist. Its value is below 0x10000, little-endian in those two bytes. |
| Fat.NextClusterUnpacks | Source/FAT16Interpreter.py:103-106 | The lookup is `struct.unpack('<H', ...)` of the two-byte slice at the entry's offset, including the struct.error when the slice is short. |
| Fat.Chain | Source/FAT16Interpreter.py:98-101 | Every result is a chain: each FAT entry is the next cluster and at most 0xFFF8, and the last entry is above 0xFFF8. Failure is a short read or running out of fuel. |
| Fat.ChainComplete | Source/FAT16Interpreter.py:98-101 | Every chain of at most fuel + 1 clusters is found: the reference definition returns exactly that chain. |
| Fat.ChainUnique | Source/FAT16Interpreter.py:98-101 | Two chains from the same start are equal: each FAT entry fixes the next cluster, and only the last entry is above 0xFFF8. |
| Fat.ChainRunsOffDisk | Source/FAT16Interpreter.py:101-105 | A walk of followed links, within the fuel, whose last FAT lookup lies past the end of the disk makes the chain fail with struct.error. |
| Fat.ShortReadHasPath | Source/FAT16Interpreter.py:101-105 | Conversely, a struct.error from the chain yields such a walk: followed links from the start, within the fuel, ending at a cluster whose FAT entry is past the end of the disk. |
| Fat.ChainLastIsNew | Source/FAT16Interpreter.py:98-101 | The last cluster of a chain does not occur earlier in it. |
| Fat.ChainFollowsReservedEnd | Soruce/FAT16Interpreter.py:83-86 | An entry of 0xFFF8 is followed as cluster 0xFFF8 rather than ending the chain. |
| Trace.PrintExcerpt | Source/FAT16Interpreter.py:89-90 | A raising print leaves the state as it was. ValueError is raised exactly when the cluster holds no newline. A completed print adds one Excerpt event: a line without newline that, followed by a newline, is a prefix of the cluster. |
| Trace.ExcerptOutcome | Source/FAT16Interpreter.py:89-90 | Printing a file prints exactly the bytes before its first newline, if they decode. A missing newline raises ValueError, and a line that does not decode raises UnicodeDecodeError. The memo and `disk_name` are untouched. |
| Interpreter.LinkLoop | Source/FAT16Interpreter.py:98-101 | The loop keeps the memo sound and only adds keys. Its int keys are unchanged, and it can raise only struct.error or run out of fuel. |
| Interpreter.CreateLinkedList | Source/FAT16Interpreter.py:93-101 | Building keeps the memo sound and only adds keys; it can raise only struct.error or run out of fuel. |
| Interpreter.NextNode | Source/FAT16Interpreter.py:91 | The loop after a cluster read ends exactly when the start's int key holds '0xffff'. A missing int key raises KeyError, and in a sound memo the value is never another string. |
| Interpreter.ReadFat | Source/FAT16Interpreter.py:67-75 | Output only grows and memo keys are never removed. A sound memo stays sound, and the TypeError path is never taken. |
| Interpreter.ReadCluster | Source/FAT16Interpreter.py:77-91 | Output only grows and memo keys are never removed. A sound memo stays sound, and the TypeError path is never taken. |
| Interpreter.ScanEntries | Source/FAT16Interpreter.py:61-65 | Models both entry loops, the root one and the folder one (lines 84-87). Output only grows and memo keys are never removed. A sound memo stays sound, and the TypeError path is never taken. |
| Interpreter.MatchFileType | Source/FAT16Interpreter.py:30-55 | Output only grows and memo keys are never removed. A sound memo stays sound, and the TypeError path is never taken. |
| Interpreter.ReadRootDir | Source/FAT16Interpreter.py:57-65 | Output only grows and memo keys are never removed. A sound memo stays sound, and the TypeError path is never taken. |
| Interpreter.Interpret | Source/FAT16Interpreter.py:23-27 | A buffer under 24 bytes raises struct.error before anything is printed. Otherwise the final memo is sound, and TypeError never occurs. |
| InterpreterFacts.LinkLoopFollowsChain | Source/FAT16Interpreter.py:98-101 | The loop ends exactly when the reference chain ends within the fuel, and fails with the same error when it fails. The memo gains the chain's links under hex keys. |
| InterpreterFacts.CreateLinkedListFollowsChain | Source/FAT16Interpreter.py:93-101 | For a start whose entry is not 0xFFFF, building completes exactly when the reference chain does, and adds its links. |
| InterpreterFacts.AddLinksSpec | Source/FAT16Interpreter.py:99 | Building adds exactly the hex keys of every chain cluster but the last, each mapped to hex of its successor. Other keys keep their values, and the last cluster gets no key. |
| InterpreterFacts.ReadFatBadCluster | Source/FAT16Interpreter.py:70-72 | A start whose entry is 0xFFF7 raises BadClusterException. The memo, `disk_name` and output are unchanged. |
| InterpreterFacts.ReadFatOneCluster | Source/FAT16Interpreter.py:73-75 | A start whose entry is 0xFFFF is stored as start ↦ '0xffff', and its one cluster is read. An existing key already says the same. |
| InterpreterFacts.OneClusterFile | Source/FAT16Interpreter.py:77-91 | A one-cluster file prints the first line of the sector at data start + sector size·(start − 2). The memo gains exactly start ↦ '0xffff'. |
| InterpreterFacts.RepeatedOneClusterFile | Source/FAT16Interpreter.py:73-74 | Requesting the same one-cluster file again leaves the memo unchanged and prints the same line again. |
| InterpreterFacts.OneClusterFolder | Source/FAT16Interpreter.py:77-91 | A one-cluster folder scans exactly its one cluster, and completes if the scan does. |
| InterpreterFacts.MultiClusterStartFails | Source/FAT16Interpreter.py:67-91 | A start whose FAT entry is not 0xFFFF never completes. If the entry is not 0xFFF7, the chain builds and fuel remains, the run is exactly the first cluster's read (first line printed, or first folder cluster scanned). If that read does not raise, the run ends in KeyError, because the links went under hex keys (line 99) and line 91 looks up the int. |
| InterpreterFacts.ScanStep | Source/FAT16Interpreter.py:61-65 | Once an entry's dispatch completes, whether or not it descended into a folder or file, the scan continues from the next entry with the state that dispatch left. |
| InterpreterFacts.ScanWithoutDescent | Source/FAT16Interpreter.py:61-65 | Entries that neither descend nor fail are processed one after another without raising. |
| InterpreterFacts.PassiveScanContents | Source/FAT16Interpreter.py:33-37 | Such entries print exactly their labels in order, leave the last label in `disk_name`, and leave the memo alone. |
| InterpreterFacts.RootWithoutDescent | Source/FAT16Interpreter.py:57-65 | The root scan visits the `dir_entries` entries at root start + 32i in order. 0x08 sets `disk_name` to the full unstripped name. 0x00 and unknown bytes print and change nothing. |
| InterpreterFacts.FolderDispatch | Source/FAT16Interpreter.py:38-43 | A folder entry prints its stripped 11-byte name, then reads the folder whose start is the u16 at entry offset 26. |
| InterpreterFacts.FileDispatch | Source/FAT16Interpreter.py:44-55 | A file entry prints its stripped 8-byte name and 3-byte extension, then reads the file from the u16 at entry offset 26. |
| InterpreterFacts.FolderLayout | Source/FAT16Interpreter.py:81-84 | A folder cluster is scanned from 64 bytes past its start, for (sector size − 64) div 32 entries. |
| Draft.LinkLoop | Soruce/FAT16Interpreter.py:83-86 | The loop keeps the int-keyed memo sound and only adds keys; it can raise only struct.error or run out of fuel. |
| Draft.CreateLinkedList | Soruce/FAT16Interpreter.py:81-86 | Building keeps the memo sound and only adds keys. |
| Draft.ReadFat | Soruce/FAT16Interpreter.py:47-56 | Below a folder only files and first lines are printed, and below a file only its first line. `disk_name` never changes, memo keys are never removed, and a sound memo stays sound. |
| Draft.ReadCluster | Soruce/FAT16Interpreter.py:58-79 | A file cluster's read prints the bytes of the 512-byte slice before its first newline, or raises ValueError (no newline) or UnicodeDecodeError (the line does not decode), with the memo and `disk_name` untouched. The output obeys the same nesting rule. |
| Draft.ScanFolder | Soruce/FAT16Interpreter.py:63-76 | A folder prints only files and first lines, and never changes `disk_name`. |
| Draft.FolderEntry | Soruce/FAT16Interpreter.py:64-76 | One folder entry prints only files and first lines, and never changes `disk_name`. |
| Draft.ScanRoot | Soruce/FAT16Interpreter.py:32-45 | Output only grows and memo keys are never removed. A sound memo stays sound. |
| Draft.RootEntry | Soruce/FAT16Interpreter.py:33-45 | Output only grows and memo keys are never removed. A sound memo stays sound. |
| Draft.Interpret | Soruce/FAT16Interpreter.py:23-27 | A buffer under 24 bytes raises struct.error before anything is printed. Otherwise the final memo is sound. |
| DraftFacts.LinkLoopFollowsChain | Soruce/FAT16Interpreter.py:81-86 | Building completes exactly when the reference chain ends within the fuel, and fails with the same error. The memo gains the chain's links under int keys. |
| DraftFacts.AddLinksKeys | Soruce/FAT16Interpreter.py:84 | Building adds exactly the keys of every chain cluster but the last. |
| DraftFacts.AddLinksValues | Soruce/FAT16Interpreter.py:84 | Every chain cluster but the last ends up mapped to its successor. Overwrites on a revisited cluster store the same value. |
| DraftFacts.AddLinksOthers | Soruce/FAT16Interpreter.py:84 | Keys outside the chain keep their values. |
| DraftFacts.LastKeyIsNew | Soruce/FAT16Interpreter.py:83-84 | The last cluster of a chain gets no key, because the loop stops before storing it. |
| DraftFacts.AddLinksIdempotent | Soruce/FAT16Interpreter.py:81-86 | Building the same chain twice leaves the memo as building it once. |
| DraftFacts.BadStart | Soruce/FAT16Interpreter.py:50-51 | A start whose entry is 0xFFF7 raises with nothing read, stored or printed. |
| DraftFacts.OneClusterRead | Soruce/FAT16Interpreter.py:52-54 | A start whose entry is 0xFFFF is read directly, and the memo is untouched. |
| DraftFacts.LongChainNotRead | Soruce/FAT16Interpreter.py:55-56 | For any other start nothing is read or printed. The run completes exactly when the reference chain does, and the memo gains its links. |
| DraftFacts.LongChainTwice | Soruce/FAT16Interpreter.py:47-56 | Requesting the same longer chain twice gives the same run as requesting it once. |
| DraftFacts.OneClusterFile | Soruce/FAT16Interpreter.py:58-79 | A one-cluster file prints the first line of the 512 bytes at data start + 512·(start − 2), whatever the sector size. |
| DraftFacts.StrideAgreement | Soruce/FAT16Interpreter.py:59 | The two copies address cluster c alike exactly when c = 2 or the sector size is 512. |
| DraftFacts.FolderLayout | Soruce/FAT16Interpreter.py:59-63 | A folder cluster is scanned from 64 bytes past the 512-stride offset, for (sector size − 64) div 32 entries. |
| DraftFacts.RootSkips | Soruce/FAT16Interpreter.py:33-45 | A root entry that is neither 0x08 nor 0x10, a file included, prints and changes nothing once its name decodes. |
| DraftFacts.RootDecodesEveryName | Soruce/FAT16Interpreter.py:34 | A root entry whose name does not decode raises, even for attribute 0x00. |
| DraftFacts.RootLabel | Soruce/FAT16Interpreter.py:38-40 | A label sets `disk_name` to the full 11-byte name and prints it unstripped. |
| DraftFacts.RootFolder | Soruce/FAT16Interpreter.py:41-45 | A root folder entry prints its stripped name, then reads the folder at the u16 of entry offset 26. |
| DraftFacts.FolderSkips | Soruce/FAT16Interpreter.py:67-69 | In a folder, every entry but a file is skipped without decoding its name, sub-folders included. |
| DraftFacts.FolderFile | Soruce/FAT16Interpreter.py:70-76 | A file entry in a folder prints its stripped name and its extension, then reads the file at the u16 of entry offset 26. |

## Left out

- Opening, sizing, reading and closing the image file, and the module-level driver lines. The model takes the disk as a byte sequence.
- The `print` formatting: the prefixes, the `:` suffixes and the `.` between name and extension. Each printed line is an event holding the bytes it shows.
- The final `print(fat16Int.linked_list)` of the later copy's driver.
- Bytes.Decode: accepts only ASCII. Valid multi-byte UTF-8 that Python would decode is a decode error here.
- Bytes.RStrip: strips ASCII whitespace only. Python's `str.rstrip` also strips Unicode whitespace, which cannot occur in an ASCII-decoded name.
- Interpreter.ReadFat: the walk is bounded by fuel. Where Python would recurse forever on a cyclic folder structure, or until it hits its recursion limit, the model returns `OutOfFuel`.
- Interpreter.LinkLoop: the loop is bounded by fuel. A FAT cycle that Python would follow forever ends in `OutOfFuel`.
- Draft.LinkLoop: the loop is bounded by fuel, for the same reason.
- Interpreter.ReadCluster: its own contract states only the invariants of the walk (output grows, keys kept, soundness, no TypeError). The cluster-level behaviour is stated by InterpreterFacts.OneClusterFile, OneClusterFolder and MultiClusterStartFails.
- Interpreter.MatchFileType: its own contract states only the walk invariants. The per-attribute behaviour is stated by InterpreterFacts.FolderDispatch, FileDispatch and RootWithoutDescent.
- Interpreter.ScanEntries: its own contract states only the walk invariants. InterpreterFacts.ScanStep states the entry-by-entry order for every entry whose dispatch completes, descending or not. InterpreterFacts.ScanWithoutDescent states the whole result for a scan none of whose entries descend.
- Interpreter.ReadRootDir: its own contract states only the walk invariants. Its result for a root without folders or files is stated by InterpreterFacts.RootWithoutDescent.
- Draft.ScanRoot: its own contract states only the walk invariants. The per-entry behaviour is stated by DraftFacts.RootSkips, RootDecodesEveryName, RootLabel and RootFolder.
- Draft.RootEntry: its own contract states only the walk invariants. Its branches are stated by the same four DraftFacts lemmas.
- The instance fields that hold only copies of the geometry are folded into `Boot.Geometry`, together with `full_disk`.
