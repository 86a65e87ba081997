/** The troubleshoot add-on's file-transfer callbacks, as far as they decide
    something: what `stat` reports about a path and which flags `open`
    passes to the file system. The reads, writes and closes themselves are
    file-system I/O and are not modelled. */
module FileTransfer {
  import opened MenderTypes

  /** The type field of a Zephyr directory entry (FS_DIR_ENTRY_FILE or FS_DIR_ENTRY_DIR). */
  datatype EntryType = RegularFile | Directory

  /** What fs_stat() writes into its `struct fs_dirent` on success. */
  datatype DirEntry = DirEntry(kind: EntryType, size: nat)

  /** POSIX file-type bits: 0100000 (regular file) and 0040000 (directory)
      in the octal the C source writes. The type occupies bits 12 to 15 of
      a mode (the mask 0170000); the bits below are permissions. */
  const RegularMode: nat := 0x8000
  const DirectoryMode: nat := 0x4000

  /** The mode the stat callback reports for an entry. */
  function ModeOf(kind: EntryType): nat
  {
    if kind == RegularFile then RegularMode else DirectoryMode
  }

  /** Reads the entry type back out of a mode, as a receiver of the stat
      reply would: a mode whose type bits are 0100000 is a regular file,
      and any other is taken to be a directory. */
  function KindOfMode(mode: nat): EntryType
  {
    if mode % 0x10000 / 0x1000 == RegularMode / 0x1000 then RegularFile else Directory
  }

  /** The reported mode carries the entry's type and no permission bits,
      and it reads back as the same type. */
  lemma ModeRoundTrip(kind: EntryType)
    ensures KindOfMode(ModeOf(kind)) == kind
    ensures ModeOf(kind) % 0x1000 == 0 && 0 < ModeOf(kind) < 0x10000
  {
  }

  /** The callback's out-parameters: `size` and `mode` are Some when the
      callee allocated and wrote them. */
  datatype StatReply = StatReply(ret: MenderErr, size: Option<nat>, mode: Option<nat>)

  /** file_transfer_stat_cb. `entry` is None when fs_stat() fails;
      `wantSize` and `wantMode` say whether the caller passed the size and
      mode out-pointers; `sizeAllocOk` and `modeAllocOk` are the outcomes of
      the two malloc() calls. */
  function Stat(entry: Option<DirEntry>, wantSize: bool, wantMode: bool,
                sizeAllocOk: bool, modeAllocOk: bool): (r: StatReply)
    ensures entry.None? ==> r == StatReply(MenderFail, None, None)
    ensures r.ret == MenderOk <==>
              entry.Some? && (wantSize ==> sizeAllocOk) && (wantMode ==> modeAllocOk)
    ensures r.ret == MenderOk || r.ret == MenderFail
    // the size is reported only when asked for, and then it is the entry's size
    ensures r.size.Some? <==> entry.Some? && wantSize && sizeAllocOk
    ensures r.size.Some? ==> r.size.value == entry.value.size
    // the mode is reported when asked for unless an allocation failed first
    ensures r.mode.Some? <==> entry.Some? && (wantSize ==> sizeAllocOk) && wantMode && modeAllocOk
    // 0100000 exactly for a regular file, 0040000 for anything else
    ensures r.mode.Some? ==> (r.mode.value == RegularMode <==> entry.value.kind == RegularFile)
    ensures r.mode.Some? ==> (r.mode.value == DirectoryMode <==> entry.value.kind != RegularFile)
  {
    match entry
    case None => StatReply(MenderFail, None, None)
    case Some(e) =>
      if wantSize && !sizeAllocOk then StatReply(MenderFail, None, None)
      else
        var size := if wantSize then Some(e.size) else None;
        if wantMode && !modeAllocOk then StatReply(MenderFail, size, None)
        else StatReply(MenderOk, size, if wantMode then Some(ModeOf(e.kind)) else None)
  }

  /** A flag of fs_open(): FS_O_READ, FS_O_WRITE or FS_O_CREATE. */
  datatype OpenFlag = Read | Write | Create

  /** The flags the open callback passes for a mode string. */
  function FlagsFor(mode: string): set<OpenFlag>
  {
    if mode == "rb" then {Read} else {Create, Write}
  }

  /** Exactly the mode "rb" opens for reading only; every other mode string
      ("wb", "r", "", ...) creates the file if needed and opens it for writing. */
  lemma OnlyRbReads(mode: string)
    ensures Read in FlagsFor(mode) <==> mode == "rb"
    ensures Write in FlagsFor(mode) <==> Create in FlagsFor(mode)
    ensures Write in FlagsFor(mode) <==> Read !in FlagsFor(mode)
  {
  }

  /** `flags` is what fs_open() was called with, if it was called;
      `handleSet` is whether the handle out-parameter was written. */
  datatype OpenReply = OpenReply(ret: MenderErr, flags: Option<set<OpenFlag>>, handleSet: bool)

  /** file_transfer_open_cb. `allocOk` is the outcome of the malloc() of the
      file object; `openOk` is whether fs_open() returns a non-negative value. */
  function Open(mode: string, allocOk: bool, openOk: bool): (r: OpenReply)
    // without a file object the file system is not touched
    ensures !allocOk ==> r == OpenReply(MenderFail, None, false)
    ensures allocOk ==> r.flags.Some?
    ensures r.flags.Some? ==> (r.flags.value == {Read} <==> mode == "rb")
    ensures r.flags.Some? ==> (r.flags.value == {Create, Write} <==> mode != "rb")
    // a handle is handed out exactly on success
    ensures r.ret == MenderOk <==> allocOk && openOk
    ensures r.handleSet <==> r.ret == MenderOk
    ensures r.ret == MenderOk || r.ret == MenderFail
  {
    if !allocOk then OpenReply(MenderFail, None, false)
    else
      var flags := FlagsFor(mode);
      if openOk then OpenReply(MenderOk, Some(flags), true)
      else OpenReply(MenderFail, Some(flags), false)
  }
}
