/** Directories: files of 16-byte entries, read as a finite map from names to inode
    numbers, under names cut to DIRSIZ bytes. */
module Directory {
  import opened Wrappers
  import opened Bytes
  import opened FsImage
  import opened FsContents
  import opened FileSystem

  const DIRSIZ := 14
  const ENTRY := 16 // sizeof(struct dirent)

  /** A string as its bytes before the terminating NUL. */
  ghost predicate IsString(s: seq<byte>) {
    0 !in s
  }

  /** strncmp and strncpy look at no more than DIRSIZ bytes. */
  function Cut(name: seq<byte>): (r: seq<byte>)
    ensures |r| <= DIRSIZ && r <= name
  {
    if |name| <= DIRSIZ then name else name[..DIRSIZ]
  }

  /** The name in a fixed-size field: up to the first NUL, or all of it. */
  function NameIn(field: seq<byte>): (r: seq<byte>)
    ensures IsString(r) && r <= field
    ensures |r| < |field| ==> field[|r|] == 0
  {
    if field == [] || field[0] == 0 then [] else [field[0]] + NameIn(field[1..])
  }

  function Padded(name: seq<byte>): (field: seq<byte>)
    ensures |field| == DIRSIZ
  {
    Cut(name) + seq(DIRSIZ - |Cut(name)|, _ => 0)
  }

  lemma {:induction false} NameUnique(field: seq<byte>, r: seq<byte>)
    requires IsString(r) && r <= field && (|r| < |field| ==> field[|r|] == 0)
    ensures NameIn(field) == r
  {
    if r != [] {
      assert field[0] == r[0] != 0;
      assert r[0] in r;
      NameUnique(field[1..], r[1..]);
    }
  }

  /** strncpy then reading the field back gives the name, cut. */
  lemma PaddedName(name: seq<byte>)
    requires IsString(name)
    ensures NameIn(Padded(name)) == Cut(name)
  {
    NameUnique(Padded(name), Cut(name));
  }

  /** strncmp(name, field, DIRSIZ) == 0. */
  method SameName(name: seq<byte>, field: seq<byte>) returns (same: bool)
    requires IsString(name) && |field| == DIRSIZ
    ensures same <==> NameIn(field) == Cut(name)
  {
    var i := 0;
    while i < DIRSIZ && i < |name| && name[i] == field[i]
      invariant 0 <= i <= DIRSIZ && i <= |name| && name[..i] == field[..i]
    {
      i := i + 1;
    }
    SameNameAt(name, field, i);
    same := i == DIRSIZ || (if i < |name| then name[i] else 0) == field[i];
  }

  /** Where strncmp stops decides whether the names agree. */
  lemma SameNameAt(name: seq<byte>, field: seq<byte>, i: nat)
    requires IsString(name) && |field| == DIRSIZ && i <= DIRSIZ && i <= |name| && name[..i] == field[..i]
    requires i == DIRSIZ || i == |name| || name[i] != field[i]
    ensures i == DIRSIZ || (if i < |name| then name[i] else 0) == field[i] <==> NameIn(field) == Cut(name)
  {
    if i == DIRSIZ || (i == |name| && field[i] == 0) {
      NameUnique(field, Cut(name));
    } else if i < |name| {
      assert |Cut(name)| > i && Cut(name)[i] == name[i];
    }
  }

  // ---------- entries ----------

  datatype Dirent = Dirent(inum: nat, field: seq<byte>)

  function Decode(b: seq<byte>): (e: Dirent)
    requires |b| == ENTRY
    ensures e.inum < 0x1_0000 && |e.field| == DIRSIZ
    ensures e.inum % 256 == b[0] as int && e.inum / 256 == b[1] as int
    ensures forall i :: 0 <= i < DIRSIZ ==> e.field[i] == b[i + 2]
  {
    Dirent(b[0] as int + 256 * (b[1] as int), b[2..])
  }

  function Encode(e: Dirent): (b: seq<byte>)
    requires e.inum < 0x1_0000 && |e.field| == DIRSIZ
    ensures |b| == ENTRY && Decode(b) == e
  {
    [(e.inum % 256) as byte, (e.inum / 256) as byte] + e.field
  }

  /** The entries of a directory file. */
  function Entries(c: seq<byte>): (es: seq<Dirent>)
    ensures |es| == |c| / ENTRY
    ensures forall k :: 0 <= k < |es| ==> es[k].inum < 0x1_0000 && |es[k].field| == DIRSIZ
  {
    seq(|c| / ENTRY, k requires 0 <= k < |c| / ENTRY => Decode(c[ENTRY * k..ENTRY * k + ENTRY]))
  }

  ghost predicate Names(e: Dirent, name: seq<byte>) {
    e.inum != 0 && NameIn(e.field) == Cut(name)
  }

  /** No two entries in use have the same name. */
  ghost predicate Unique(es: seq<Dirent>) {
    forall j, k :: 0 <= j < k < |es| && es[j].inum != 0 && es[k].inum != 0 ==>
        NameIn(es[j].field) != NameIn(es[k].field)
  }

  /** The map that the entries denote. */
  function Bindings(es: seq<Dirent>): map<seq<byte>, nat> {
    if es == [] then map[]
    else
      var m := Bindings(es[..|es| - 1]);
      var e := es[|es| - 1];
      if e.inum == 0 then m else m[NameIn(e.field) := e.inum]
  }

  lemma {:induction false} BindingsHas(es: seq<Dirent>, name: seq<byte>)
    requires Unique(es)
    ensures name in Bindings(es) <==> exists k :: 0 <= k < |es| && es[k].inum != 0 && NameIn(es[k].field) == name
    ensures forall k :: 0 <= k < |es| && es[k].inum != 0 && NameIn(es[k].field) == name ==>
              name in Bindings(es) && Bindings(es)[name] == es[k].inum
  {
    if es != [] {
      var es0 := es[..|es| - 1];
      BindingsHas(es0, name);
      assert forall k :: 0 <= k < |es0| ==> es0[k] == es[k];
    }
  }

  /** Putting a new name into a free entry, or past the end, adds one binding. */
  lemma BindingsAdd(es: seq<Dirent>, k: nat, e: Dirent)
    requires Unique(es) && k <= |es| && (k < |es| ==> es[k].inum == 0)
    requires e.inum != 0 && NameIn(e.field) !in Bindings(es)
    ensures
      var es' := if k < |es| then es[k := e] else es + [e];
      Unique(es') && Bindings(es') == Bindings(es)[NameIn(e.field) := e.inum]
  {
    var es' := if k < |es| then es[k := e] else es + [e];
    var name := NameIn(e.field);
    BindingsHas(es, name);
    assert es'[k] == e && forall j :: 0 <= j < |es| && j != k ==> es'[j] == es[j];
    assert Unique(es');
    var m := Bindings(es)[name := e.inum];
    forall x ensures x in Bindings(es') <==> x in m {
      BindingsHas(es, x);
      BindingsHas(es', x);
      assert forall j :: 0 <= j < |es| && es[j].inum != 0 ==> es'[j] == es[j];
    }
    forall x | x in m ensures Bindings(es')[x] == m[x] {
      BindingsHas(es, x);
      BindingsHas(es', x);
    }
  }

  /** Clearing an entry removes its binding and no other. */
  lemma BindingsDrop(es: seq<Dirent>, k: nat, e: Dirent)
    requires Unique(es) && k < |es| && es[k].inum != 0 && e.inum == 0
    ensures Unique(es[k := e]) && Bindings(es[k := e]) == Bindings(es) - {NameIn(es[k].field)}
  {
    var es' := es[k := e];
    var m := Bindings(es) - {NameIn(es[k].field)};
    forall x ensures x in Bindings(es') <==> x in m {
      BindingsHas(es, x);
      BindingsHas(es', x);
      assert forall j :: 0 <= j < |es| && es[j].inum != 0 && j != k ==> es'[j] == es[j];
    }
    forall x | x in m ensures Bindings(es')[x] == m[x] {
      BindingsHas(es, x);
      BindingsHas(es', x);
    }
  }

  /** Writing one entry at a multiple of the entry size replaces or appends it. */
  lemma EntriesAfterWrite(c: seq<byte>, k: nat, e: Dirent)
    requires |c| % ENTRY == 0 && ENTRY * k <= |c| && e.inum < 0x1_0000 && |e.field| == DIRSIZ
    ensures
      var c' := Overwrite(c, ENTRY * k, Encode(e));
      && |c'| % ENTRY == 0
      && Entries(c') == if k < |Entries(c)| then Entries(c)[k := e] else Entries(c) + [e]
  {
    var c' := Overwrite(c, ENTRY * k, Encode(e));
    var es, es' := Entries(c), Entries(c');
    assert |es| * ENTRY == |c|;
    assert c'[ENTRY * k..ENTRY * k + ENTRY] == Encode(e);
    forall j | 0 <= j < |es| && j != k ensures es'[j] == es[j] {
      assert ENTRY * j + ENTRY <= ENTRY * k || ENTRY * k + ENTRY <= ENTRY * j;
      assert c'[ENTRY * j..ENTRY * j + ENTRY] == c[ENTRY * j..ENTRY * j + ENTRY];
    }
  }

  // ---------- the code ----------

  /** Inode dp is a directory: whole entries, each name once. */
  ghost predicate IsDirectory(s: Fs, dp: nat) {
    && Inv(s) && dp < |s.inodes|
    && s.inodes[dp].size % ENTRY == 0
    && Unique(Entries(FileOf(s, dp)))
  }

  ghost function DirectoryOf(s: Fs, dp: nat): map<seq<byte>, nat>
    requires IsDirectory(s, dp)
  {
    Bindings(Entries(FileOf(s, dp)))
  }

  /** Result of changing an entry: done, refused (-1), or a panic of writei. */
  datatype LinkResult = Done | Refused | Panicked

  /** readi of the k-th entry. */
  method ReadEntry(fs: FileSystem, dp: nat, k: nat) returns (e: Dirent)
    requires IsDirectory(fs.Image(), dp) && ENTRY * k < fs.inodes[dp].size
    modifies fs
    ensures fs.Image() == old(fs.Image()) && fs.logged == old(fs.logged)
    ensures k < |Entries(FileOf(fs.Image(), dp))| && e == Entries(FileOf(fs.Image(), dp))[k]
  {
    hide Inv, Holds, NoHoles;
    InvShape(fs.Image());
    var r := fs.Readi(dp, ENTRY * k, ENTRY, ENTRY);
    EntryWhole(ENTRY * k);
    e := Decode(r.value);
  }

  /** An entry never straddles two blocks, so reading it takes one copy. */
  lemma EntryWhole(off: nat)
    requires off % ENTRY == 0
    ensures Copied(off, ENTRY, ENTRY, 0) == ENTRY
    ensures forall limit: nat :: limit >= ENTRY ==> Copied(off, ENTRY, limit, 0) == ENTRY
  {
    assert BSIZE - off % BSIZE >= ENTRY;
    assert Chunk(off + 0, ENTRY - 0) == ENTRY;
  }

  /** dirlookup: the inode number and offset of the entry with this name. */
  method Dirlookup(fs: FileSystem, dp: nat, name: seq<byte>) returns (r: Option<(nat, nat)>)
    requires IsDirectory(fs.Image(), dp) && IsString(name)
    modifies fs
    ensures fs.Image() == old(fs.Image()) && fs.logged == old(fs.logged)
    ensures r.None? <==> Cut(name) !in DirectoryOf(fs.Image(), dp)
    ensures r.Some? ==>
              && Cut(name) in DirectoryOf(fs.Image(), dp) && r.value.0 == DirectoryOf(fs.Image(), dp)[Cut(name)]
              && r.value.1 % ENTRY == 0 && r.value.1 / ENTRY < |Entries(FileOf(fs.Image(), dp))|
              && Names(Entries(FileOf(fs.Image(), dp))[r.value.1 / ENTRY], name)
  {
    hide Inv, Holds, NoHoles, Unique, NameIn, Bindings, Decode;
    ghost var s := fs.Image();
    ghost var es := Entries(FileOf(s, dp));
    BindingsHas(es, Cut(name));
    var off := 0;
    ghost var k := 0;
    while off < fs.inodes[dp].size
      invariant fs.Image() == s && fs.logged == old(fs.logged)
      invariant off == ENTRY * k && k <= |es|
      invariant forall j :: 0 <= j < k ==> !Names(es[j], name)
    {
      var e := ReadEntry(fs, dp, off / ENTRY);
      if e.inum != 0 {
        var same := SameName(name, e.field);
        if same {
          return Some((e.inum, off));
        }
      }
      off, k := off + ENTRY, k + 1;
    }
    return None;
  }

  ghost predicate AllInUse(es: seq<Dirent>) {
    forall k :: 0 <= k < |es| ==> es[k].inum != 0
  }

  /** dirlink's search for an unused entry; past the end exactly if there is none. */
  method FindUnused(fs: FileSystem, dp: nat) returns (off: nat)
    requires IsDirectory(fs.Image(), dp)
    modifies fs
    ensures fs.Image() == old(fs.Image()) && fs.logged == old(fs.logged)
    ensures off % ENTRY == 0 && off <= fs.inodes[dp].size
    ensures off < fs.inodes[dp].size ==>
              off / ENTRY < |Entries(FileOf(fs.Image(), dp))| && Entries(FileOf(fs.Image(), dp))[off / ENTRY].inum == 0
    ensures off == fs.inodes[dp].size <==> AllInUse(Entries(FileOf(fs.Image(), dp)))
  {
    hide Inv, Holds, NoHoles, Unique, Decode;
    ghost var s := fs.Image();
    ghost var es := Entries(FileOf(s, dp));
    off := 0;
    while off < fs.inodes[dp].size
      invariant fs.Image() == s && fs.logged == old(fs.logged)
      invariant off % ENTRY == 0 && off <= fs.inodes[dp].size
      invariant forall k :: 0 <= k < off / ENTRY ==> k < |es| && es[k].inum != 0
    {
      var e := ReadEntry(fs, dp, off / ENTRY);
      if e.inum == 0 {
        return;
      }
      off := off + ENTRY;
    }
  }

  /** An entry at `off` is past the largest file, or there is no block for it. */
  ghost predicate NoRoom(s: Fs, dp: nat, off: nat) {
    off + ENTRY > MAXFILE * BSIZE || TooMuch(s, dp, off, ENTRY, ENTRY)
  }

  /** There is room for an entry that is there already. */
  lemma RoomInside(s: Fs, dp: nat, off: nat)
    requires Inv(s) && dp < |s.inodes| && off % ENTRY == 0 && off + ENTRY <= s.inodes[dp].size
    ensures !NoRoom(s, dp, off)
  {
    hide Bit, WordAt, Free;
    var bn := off / BSIZE;
    assert NoHoles(s, dp);
    assert BlocksEnd(off, ENTRY) == bn + 1;
    assert bn * BSIZE < s.inodes[dp].size;
    assert Need(s, dp, bn, bn) == 0;
  }

  /** writei of one entry. False is the panic, exactly for an entry without room. */
  method WriteEntry(fs: FileSystem, dp: nat, off: nat, e: Dirent) returns (ok: bool)
    requires IsDirectory(fs.Image(), dp) && off % ENTRY == 0 && off <= fs.inodes[dp].size
    requires e.inum < 0x1_0000 && |e.field| == DIRSIZ
    modifies fs
    ensures !ok <==> NoRoom(old(fs.Image()), dp, off)
    ensures ok ==>
              && Inv(fs.Image()) && dp < |fs.inodes| && fs.inodes[dp].size % ENTRY == 0
              && OtherFiles(old(fs.Image()), fs.Image(), dp)
              && var es := Entries(FileOf(old(fs.Image()), dp));
              Entries(FileOf(fs.Image(), dp)) == if off / ENTRY < |es| then es[off / ENTRY := e] else es + [e]
  {
    hide Holds, NoHoles, OtherFiles, Logs, Owners, TooMuch, Filled;
    InvShape(fs.Image());
    ghost var s := fs.Image();
    var w := fs.Writei(dp, off, Encode(e), ENTRY);
    EntryWhole(off);
    ok := w.Wrote?;
    if ok {
      assert Encode(e)[..ENTRY] == Encode(e) && Encode(e)[ENTRY..ENTRY] == [];
      VisibleAll(FileOf(s, dp), off, Encode(e));
      EntriesAfterWrite(FileOf(s, dp), off / ENTRY, e);
      FileIs(fs.Image(), dp, Overwrite(FileOf(s, dp), off, Encode(e)));
    }
  }

  /** dirlink adds exactly one binding, or leaves everything as it is. It panics exactly
      when the name is new, every entry is in use and the directory cannot grow. */
  method Dirlink(fs: FileSystem, dp: nat, name: seq<byte>, inum: nat) returns (r: LinkResult)
    requires IsDirectory(fs.Image(), dp) && IsString(name) && 0 < inum < 0x1_0000
    modifies fs
    ensures r.Refused? <==> Cut(name) in DirectoryOf(old(fs.Image()), dp)
    ensures r.Refused? ==> fs.Image() == old(fs.Image()) && fs.logged == old(fs.logged)
    ensures r.Panicked? <==>
              && Cut(name) !in DirectoryOf(old(fs.Image()), dp)
              && AllInUse(Entries(FileOf(old(fs.Image()), dp)))
              && NoRoom(old(fs.Image()), dp, old(fs.inodes[dp].size))
    ensures r.Done? ==>
              && IsDirectory(fs.Image(), dp) && OtherFiles(old(fs.Image()), fs.Image(), dp)
              && DirectoryOf(fs.Image(), dp) == DirectoryOf(old(fs.Image()), dp)[Cut(name) := inum]
  {
    hide Inv, Holds, NoHoles, OtherFiles, Unique, AllInUse, NoRoom, Bindings;
    ghost var es := Entries(FileOf(fs.Image(), dp));
    var found := Dirlookup(fs, dp, name);
    if found.Some? {
      return Refused;
    }
    var off := FindUnused(fs, dp);
    var e := Dirent(inum, Padded(name));
    PaddedName(name);
    if off < fs.inodes[dp].size {
      RoomInside(fs.Image(), dp, off);
    }
    var ok := WriteEntry(fs, dp, off, e);
    if !ok {
      return Panicked;
    }
    BindingsAdd(es, off / ENTRY, e);
    return Done;
  }

  const DOT: seq<byte> := [46]
  const DOTDOT: seq<byte> := [46, 46]

  /** Nothing is in use after the first two entries. */
  ghost predicate EmptyDirectory(s: Fs, n: nat)
    requires IsDirectory(s, n)
  {
    forall k :: 2 <= k < |Entries(FileOf(s, n))| ==> Entries(FileOf(s, n))[k].inum == 0
  }

  /** isdirempty. */
  method IsDirEmpty(fs: FileSystem, dp: nat) returns (empty: bool)
    requires IsDirectory(fs.Image(), dp)
    modifies fs
    ensures fs.Image() == old(fs.Image()) && fs.logged == old(fs.logged)
    ensures empty <==> EmptyDirectory(fs.Image(), dp)
  {
    hide Inv, Holds, NoHoles, Unique, Decode;
    ghost var s := fs.Image();
    var off := 2 * ENTRY;
    while off < fs.inodes[dp].size
      invariant fs.Image() == s && fs.logged == old(fs.logged)
      invariant off % ENTRY == 0 && off >= 2 * ENTRY
      invariant forall k :: 2 <= k < off / ENTRY && k < |Entries(FileOf(s, dp))| ==> Entries(FileOf(s, dp))[k].inum == 0
    {
      var e := ReadEntry(fs, dp, off / ENTRY);
      if e.inum != 0 {
        return false;
      }
      off := off + ENTRY;
    }
    return true;
  }

  /** Directories that the entries of dp lead to are directories. */
  ghost predicate LeadsToDirectories(s: Fs, dp: nat, dirs: set<nat>)
    requires IsDirectory(s, dp)
  {
    forall name :: name in DirectoryOf(s, dp) && DirectoryOf(s, dp)[name] in dirs ==>
      IsDirectory(s, DirectoryOf(s, dp)[name])
  }

  /** The name of a directory in `dirs` that has entries. */
  ghost predicate Occupied(s: Fs, dp: nat, name: seq<byte>, dirs: set<nat>)
    requires IsDirectory(s, dp) && LeadsToDirectories(s, dp, dirs)
  {
    && name in DirectoryOf(s, dp) && DirectoryOf(s, dp)[name] in dirs
    && !EmptyDirectory(s, DirectoryOf(s, dp)[name])
  }

  /** sys_unlink on the directory dp, where `dirs` are the inodes of type T_DIR: overwrite
      the entry that dirlookup found with zeros, unless it is "." or ".." or a directory
      with entries. There is always room for that, so the panic is never reached. */
  method Unlink(fs: FileSystem, dp: nat, name: seq<byte>, dirs: set<nat>) returns (r: LinkResult)
    requires IsDirectory(fs.Image(), dp) && IsString(name) && LeadsToDirectories(fs.Image(), dp, dirs)
    modifies fs
    ensures r.Refused? <==>
              || Cut(name) == DOT || Cut(name) == DOTDOT
              || Cut(name) !in DirectoryOf(old(fs.Image()), dp)
              || Occupied(old(fs.Image()), dp, Cut(name), dirs)
    ensures r.Refused? ==> fs.Image() == old(fs.Image()) && fs.logged == old(fs.logged)
    ensures !r.Panicked?
    ensures r.Done? ==>
              && IsDirectory(fs.Image(), dp) && OtherFiles(old(fs.Image()), fs.Image(), dp)
              && DirectoryOf(fs.Image(), dp) == DirectoryOf(old(fs.Image()), dp) - {Cut(name)}
  {
    hide Inv, Holds, NoHoles, OtherFiles, Unique, EmptyDirectory, Bindings, NoRoom;
    ghost var es := Entries(FileOf(fs.Image(), dp));
    if Cut(name) == DOT || Cut(name) == DOTDOT {
      return Refused;
    }
    var found := Dirlookup(fs, dp, name);
    if found.None? {
      return Refused;
    }
    if found.value.0 in dirs {
      var empty := IsDirEmpty(fs, found.value.0);
      if !empty {
        return Refused;
      }
    }
    var e := Dirent(0, seq(DIRSIZ, _ => 0));
    RoomInside(fs.Image(), dp, found.value.1);
    var ok := WriteEntry(fs, dp, found.value.1, e);
    BindingsDrop(es, found.value.1 / ENTRY, e);
    return Done;
  }
}
