/**
 `materialize_zip_archive`: the directories an archive needs, in an order that
 always finds the parent in place, and its files streamed into a staging sink.
*/
module ZipMaterialize {
  import opened Wrappers
  import opened ZipPaths
  import opened ZipArchives
  import opened ZipValidation
  import opened Sorting

  // ------------------------------------------------------------- directories

  /** A directory entry itself, or anything with an entry below it. */
  ghost predicate NeedsDirectory(e: Entry, d: string) {
    Below(e.path, d) || (e.kind == Directory && e.path == d)
  }

  ghost predicate IsRequired(entries: seq<Entry>, d: string) {
    exists e :: e in entries && NeedsDirectory(e, d)
  }

  predicate PathLe(a: string, b: string) {
    var da, db := CountSlashes(a), CountSlashes(b);
    da < db || (da == db && LexLe(a, b))
  }

  /** By level, and alphabetically within a level. */
  predicate LevelsThenNames(dirs: seq<string>) {
    forall i, j :: 0 <= i < j < |dirs| ==>
      Depth(dirs[i]) < Depth(dirs[j]) || (Depth(dirs[i]) == Depth(dirs[j]) && Alphabetical(dirs[i], dirs[j]))
  }

  lemma SortedGoesByLevel(dirs: seq<string>)
    requires SortedBy(dirs, PathLe)
    ensures LevelsThenNames(dirs)
  {
    forall i, j | 0 <= i < j < |dirs|
      ensures Depth(dirs[i]) < Depth(dirs[j]) || (Depth(dirs[i]) == Depth(dirs[j]) && Alphabetical(dirs[i], dirs[j]))
    {
      SlashesAreDepth(dirs[i]);
      SlashesAreDepth(dirs[j]);
      LexIsAlphabetical(dirs[i], dirs[j]);
      assert PathLe(dirs[i], dirs[j]);
    }
  }

  lemma PathOrder()
    ensures TotalPreorder(PathLe)
  {
    forall a, b ensures PathLe(a, b) || PathLe(b, a) {
      LexTotal(a, b);
    }
    forall a, b, c | PathLe(a, b) && PathLe(b, c) ensures PathLe(a, c) {
      if LexLe(a, b) && LexLe(b, c) {
        LexTransitive(a, b, c);
      }
    }
  }

  lemma WholePath(path: string)
    ensures Ancestor(path, Depth(path)) == path
  {
    JoinSplit(path);
    assert Split(path)[..Depth(path)] == Split(path);
  }

  function Ancestors(path: string, n: nat): set<string>
    requires n <= Depth(path) + 1
  {
    set k | 1 <= k < n :: Ancestor(path, k)
  }

  /** Up to the whole path for a directory, up to its parent for a file. */
  lemma AncestorsAreNeeded(e: Entry, d: string)
    ensures d in Ancestors(e.path, if e.kind == Directory then Depth(e.path) + 1 else Depth(e.path)) <==> NeedsDirectory(e, d)
  {
    AncestorIsStringPrefix(e.path, d);
    WholePath(e.path);
  }

  /** The component loop for one entry adds exactly the directories it needs. */
  method AddDirectories(e: Entry, directories: set<string>) returns (r: set<string>)
    ensures forall d :: d in r <==> d in directories || NeedsDirectory(e, d)
  {
    var parts := Split(e.path);
    var limit := if e.kind == Directory then |parts| else |parts| - 1;
    r := directories;
    for index := 1 to limit + 1
      invariant r == directories + Ancestors(e.path, index)
    {
      assert Ancestors(e.path, index + 1) == Ancestors(e.path, index) + {Ancestor(e.path, index)};
      r := r + {Join(parts[..index])};
    }
    forall d ensures d in r <==> d in directories || NeedsDirectory(e, d) {
      AncestorsAreNeeded(e, d);
    }
  }

  /** `_required_directories`: each needed directory once, shallow ones first. */
  method RequiredDirectories(entries: seq<Entry>) returns (dirs: seq<string>)
    ensures forall d :: d in dirs <==> IsRequired(entries, d)
    ensures forall i, j :: 0 <= i < j < |dirs| ==> dirs[i] != dirs[j]
    ensures SortedBy(dirs, PathLe) && LevelsThenNames(dirs)
  {
    var needed: set<string> := {};
    for i := 0 to |entries|
      invariant forall d :: d in needed <==> IsRequired(entries[..i], d)
    {
      ghost var before := needed;
      needed := AddDirectories(entries[i], needed);
      assert entries[..i + 1] == entries[..i] + [entries[i]];
      forall d ensures IsRequired(entries[..i + 1], d) <==> IsRequired(entries[..i], d) || NeedsDirectory(entries[i], d) {
        RequiredStep(entries[..i], entries[i], d);
      }
    }
    assert entries[..|entries|] == entries;
    dirs := SortedElements(needed);
    SortedGoesByLevel(dirs);
  }

  lemma RequiredStep(entries: seq<Entry>, e: Entry, d: string)
    ensures IsRequired(entries + [e], d) <==> IsRequired(entries, d) || NeedsDirectory(e, d)
  {
    if IsRequired(entries, d) {
      var x :| x in entries && NeedsDirectory(x, d);
      assert x in entries + [e];
    }
    if NeedsDirectory(e, d) {
      assert e in entries + [e];
    }
  }

  /** `sorted(set)`. */
  method SortedElements(s: set<string>) returns (r: seq<string>)
    ensures forall d :: d in r <==> d in s
    ensures forall i, j :: 0 <= i < j < |r| ==> r[i] != r[j]
    ensures SortedBy(r, PathLe)
  {
    var rest := s;
    var listed: seq<string> := [];
    while rest != {}
      invariant rest <= s && multiset(listed) == multiset(s - rest)
      decreases rest
    {
      var d :| d in rest;
      assert s - (rest - {d}) == (s - rest) + {d};
      listed := listed + [d];
      rest := rest - {d};
    }
    assert s - rest == s;
    r := Sort(listed, PathLe);
    PathOrder();
    SortIsSorted(listed, PathLe);
    assert multiset(r) == multiset(s);
    forall d ensures d in r <==> d in s {
      assert d in r <==> d in multiset(r);
    }
    forall i, j | 0 <= i < j < |r| ensures r[i] != r[j] {
      if r[i] == r[j] {
        TwoOfOne(r, i, j);
      }
    }
  }

  /** The directory a path lies in, if it has more than one component. */
  function Parent(path: string): Option<string> {
    if Depth(path) == 1 then None else Some(Ancestor(path, Depth(path) - 1))
  }

  lemma ParentIsAbove(path: string)
    requires Parent(path).Some?
    ensures Below(path, Parent(path).value) && CountSlashes(Parent(path).value) < CountSlashes(path)
  {
    var q := Parent(path).value;
    AncestorIsStringPrefix(path, q);
    BelowIsDeeper(path, q);
    SlashesAreDepth(path);
    SlashesAreDepth(q);
  }

  /** The parent of a required directory is required, and of lower depth. */
  lemma ParentIsRequired(entries: seq<Entry>, d: string)
    requires IsRequired(entries, d) && Parent(d).Some?
    ensures IsRequired(entries, Parent(d).value)
  {
    ParentIsAbove(d);
    var e :| e in entries && NeedsDirectory(e, d);
    if Below(e.path, d) {
      BelowIsTransitive(e.path, d, Parent(d).value);
    }
    assert NeedsDirectory(e, Parent(d).value);
  }

  lemma ParentComesEarlier(entries: seq<Entry>, dirs: seq<string>, i: nat)
    requires i < |dirs| && SortedBy(dirs, PathLe) && forall d :: d in dirs <==> IsRequired(entries, d)
    ensures Parent(dirs[i]).Some? ==> Parent(dirs[i]).value in dirs[..i]
  {
    if Parent(dirs[i]).Some? {
      var q := Parent(dirs[i]).value;
      assert dirs[i] in dirs;
      ParentIsRequired(entries, dirs[i]);
      ParentIsAbove(dirs[i]);
      var j :| 0 <= j < |dirs| && dirs[j] == q;
      assert j < i by {
        assert !PathLe(dirs[i], q);
      }
    }
  }

  // --------------------------------------------------------------------- sink

  /**
   A staging directory. The preconditions are what a real file system demands of
   each call; `received` counts every byte ever handed to it.
  */
  class StagingSink {
    var directories: set<string>
    var files: map<string, seq<Byte>>
    var received: nat

    constructor ()
      ensures directories == {} && files == map[] && received == 0
    {
      directories, files, received := {}, map[], 0;
    }

    predicate CanCreate(path: string)
      reads this
    {
      && path !in directories && path !in files
      && (Parent(path).Some? ==> Parent(path).value in directories)
    }

    method MakeDirectory(path: string)
      requires CanCreate(path)
      modifies this`directories
      ensures directories == old(directories) + {path}
    {
      directories := directories + {path};
    }

    /** Drains the member's chunks; the file is kept only after its iterator ended normally. */
    method WriteFile(path: string, info: Info, e: Entry, limits: Limits, totalBefore: nat, crc: Checksum)
      returns (r: Result<(), ZipError>)
      requires CanCreate(path) && totalBefore <= limits.maxTotal
      modifies this`files, this`received
      ensures received - old(received) <= limits.maxFile
      ensures totalBefore + (received - old(received)) <= limits.maxTotal && received >= old(received)
      ensures r.Ok? ==> Intact(info.data, e, crc) && received == old(received) + e.size
                        && files == old(files)[path := Concat(info.data.chunks)]
      ensures r.Err? ==> files == old(files)
      ensures Intact(info.data, e, crc) && e.size <= limits.maxFile && totalBefore + e.size <= limits.maxTotal ==> r.Ok?
    {
      var yielded, read := ReadMember(info, e, limits, totalBefore, crc);
      received := received + Bytes(yielded);
      if read.Ok? {
        files := files[path := Concat(yielded)];
      }
      return read;
    }
  }

  // ---------------------------------------------------------- materialization

  /** `{entry.archive_name: info for info, entry in pairs}`. */
  method IndexByName(infos: seq<Info>, ghost limits: Limits) returns (index: map<string, Info>)
    requires AllMade(infos, limits) && Compatible(EntriesOf(infos, limits))
    ensures forall i :: 0 <= i < |infos| ==> infos[i].name in index && index[infos[i].name] == infos[i]
  {
    index := map[];
    for i := 0 to |infos|
      invariant forall k :: 0 <= k < i ==> infos[k].name in index && index[infos[k].name] == infos[k]
    {
      forall k | 0 <= k < i ensures infos[k].name != infos[i].name {
        NamesDiffer(infos, limits, k, i);
      }
      index := index[infos[i].name := infos[i]];
    }
  }

  lemma NamesDiffer(infos: seq<Info>, limits: Limits, k: nat, i: nat)
    requires k < i < |infos| && AllMade(infos, limits) && Compatible(EntriesOf(infos, limits))
    ensures infos[k].name != infos[i].name
  {
    EntryShape(infos[k], limits, EntriesOf(infos, limits)[k]);
    EntryShape(infos[i], limits, EntriesOf(infos, limits)[i]);
    assert EntriesOf(infos, limits)[k].path != EntriesOf(infos, limits)[i].path;
  }

  /** The record an entry of the manifest was made of. */
  ghost predicate MadeFrom(infos: seq<Info>, limits: Limits, e: Entry, info: Info) {
    info in infos && info.name == e.archiveName && EntryOf(info, limits) == Ok(e)
  }

  /** A file holds exactly the verified data of its record. */
  ghost predicate HoldsMember(files: map<string, seq<Byte>>, infos: seq<Info>, limits: Limits, crc: Checksum, e: Entry) {
    && e.path in files
    && exists info :: MadeFrom(infos, limits, e, info) && Intact(info.data, e, crc)
         && files[e.path] == Concat(info.data.chunks)
  }

  /** Files written so far: exactly the file entries among the first ones. */
  ghost predicate FilesWritten(files: map<string, seq<Byte>>, infos: seq<Info>, limits: Limits, crc: Checksum,
                               entries: seq<Entry>) {
    && (forall e :: e in entries && e.kind == File ==> HoldsMember(files, infos, limits, crc, e))
    && (forall p :: p in files ==> exists e :: e in entries && e.kind == File && e.path == p)
  }

  lemma FilesWrittenStep(files: map<string, seq<Byte>>, infos: seq<Info>, limits: Limits, crc: Checksum,
                         entries: seq<Entry>, e: Entry, info: Info)
    requires FilesWritten(files, infos, limits, crc, entries) && Compatible(entries + [e]) && e.kind == File
    requires MadeFrom(infos, limits, e, info) && Intact(info.data, e, crc)
    ensures FilesWritten(files[e.path := Concat(info.data.chunks)], infos, limits, crc, entries + [e])
  {
    var files' := files[e.path := Concat(info.data.chunks)];
    var more := entries + [e];
    forall x | x in more && x.kind == File ensures HoldsMember(files', infos, limits, crc, x) {
      if x == e {
        assert MadeFrom(infos, limits, e, info);
      } else {
        var k :| 0 <= k < |entries| && entries[k] == x;
        assert more[k].path != more[|entries|].path;
        assert HoldsMember(files, infos, limits, crc, x);
        var i :| MadeFrom(infos, limits, x, i) && Intact(i.data, x, crc) && files[x.path] == Concat(i.data.chunks);
        assert files'[x.path] == Concat(i.data.chunks);
      }
    }
    forall p | p in files' ensures exists x :: x in more && x.kind == File && x.path == p {
      if p == e.path {
        assert e in more;
      } else {
        var x :| x in entries && x.kind == File && x.path == p;
        assert x in more;
      }
    }
  }

  /** Writing one file entry is legal once all required directories exist. */
  lemma FileCanBeCreated(entries: seq<Entry>, i: nat)
    requires Compatible(entries) && i < |entries| && entries[i].kind == File
    ensures !IsRequired(entries, entries[i].path)
    ensures Parent(entries[i].path).Some? ==> IsRequired(entries, Parent(entries[i].path).value)
    ensures forall e :: e in entries[..i] ==> e.path != entries[i].path
  {
    var f := entries[i];
    if IsRequired(entries, f.path) {
      var e :| e in entries && NeedsDirectory(e, f.path);
      if Below(e.path, f.path) {
        assert Conflict(f, e);
      }
    }
    if Parent(f.path).Some? {
      ParentIsAbove(f.path);
      assert f in entries && NeedsDirectory(f, Parent(f.path).value);
    }
  }

  method MakeDirectories(entries: seq<Entry>, sink: StagingSink)
    requires sink.directories == {} && sink.files == map[]
    modifies sink`directories
    ensures forall d :: d in sink.directories <==> IsRequired(entries, d)
  {
    var dirs := RequiredDirectories(entries);
    for i := 0 to |dirs|
      invariant sink.directories == set d | d in dirs[..i]
      invariant sink.files == map[]
    {
      assert dirs[..i + 1] == dirs[..i] + [dirs[i]];
      ParentComesEarlier(entries, dirs, i);
      sink.MakeDirectory(dirs[i]);
    }
    assert dirs[..|dirs|] == dirs;
  }

  /** The record an entry of the sorted manifest comes from. */
  lemma RecordOf(infos: seq<Info>, limits: Limits, entries: seq<Entry>, e: Entry) returns (j: nat)
    requires AllMade(infos, limits) && entries == Sort(EntriesOf(infos, limits), EntryLe) && e in entries
    ensures j < |infos| && EntriesOf(infos, limits)[j] == e && MadeFrom(infos, limits, e, infos[j])
    ensures e.size >= 0 && (e.kind == File ==> e.size <= limits.maxFile) && (e.kind == Directory ==> e.size == 0)
  {
    var made := EntriesOf(infos, limits);
    assert e in multiset(entries);
    assert e in made;
    j :| 0 <= j < |made| && made[j] == e;
    EntryShape(infos[j], limits, e);
  }

  lemma SortedSizes(infos: seq<Info>, limits: Limits, entries: seq<Entry>)
    requires AllMade(infos, limits) && entries == Sort(EntriesOf(infos, limits), EntryLe)
    ensures forall i :: 0 <= i < |entries| ==> entries[i].size >= 0
  {
    forall i | 0 <= i < |entries| ensures entries[i].size >= 0 {
      var _ := RecordOf(infos, limits, entries, entries[i]);
    }
  }

  lemma DirectoryWritesNothing(files: map<string, seq<Byte>>, infos: seq<Info>, limits: Limits, crc: Checksum,
                               entries: seq<Entry>, e: Entry)
    requires FilesWritten(files, infos, limits, crc, entries) && e.kind == Directory
    ensures FilesWritten(files, infos, limits, crc, entries + [e])
  {
    forall p | p in files ensures exists x :: x in entries + [e] && x.kind == File && x.path == p {
      var x :| x in entries && x.kind == File && x.path == p;
      assert x in entries + [e];
    }
  }

  /** What the extraction loop works with: matching records, and every required directory in place. */
  ghost predicate Ready(infos: seq<Info>, limits: Limits, entries: seq<Entry>, index: map<string, Info>,
                        directories: set<string>) {
    && AllMade(infos, limits) && entries == Sort(EntriesOf(infos, limits), EntryLe)
    && Compatible(entries) && Total(entries) <= limits.maxTotal
    && (forall i :: 0 <= i < |infos| ==> infos[i].name in index && index[infos[i].name] == infos[i])
    && (forall d :: d in directories <==> IsRequired(entries, d))
  }

  /** One file entry of the extraction loop, after the entries `before` it. */
  method WriteFileEntry(ghost infos: seq<Info>, ghost before: seq<Entry>, info: Info, e: Entry, limits: Limits,
                        crc: Checksum, sink: StagingSink, actual: nat)
    returns (r: Result<(), ZipError>)
    requires MadeFrom(infos, limits, e, info) && Compatible(before + [e])
    requires e.kind == File && sink.CanCreate(e.path) && e.size <= limits.maxFile
    requires FilesWritten(sink.files, infos, limits, crc, before)
    requires sink.received == actual && actual + e.size <= limits.maxTotal && e.size >= 0
    modifies sink`files, sink`received
    ensures sink.received <= limits.maxTotal
    ensures r.Ok? ==> sink.received == actual + e.size
    ensures r.Ok? ==> FilesWritten(sink.files, infos, limits, crc, before + [e])
    ensures r.Err? ==> sink.files == old(sink.files)
    ensures Intact(info.data, e, crc) ==> r.Ok?
  {
    ghost var files := sink.files;
    r := sink.WriteFile(e.path, info, e, limits, actual, crc);
    if r.Ok? {
      FilesWrittenStep(files, infos, limits, crc, before, e, info);
    }
  }

  /** What the extraction loop knows about one entry before writing it. */
  lemma EntryFacts(infos: seq<Info>, index: map<string, Info>, entries: seq<Entry>, i: nat, limits: Limits,
                   crc: Checksum, directories: set<string>)
    requires i < |entries| && Ready(infos, limits, entries, index, directories)
    ensures entries[..i + 1] == entries[..i] + [entries[i]] && Compatible(entries[..i] + [entries[i]])
    ensures entries[i].archiveName in index && MadeFrom(infos, limits, entries[i], index[entries[i].archiveName])
    ensures entries[i].size >= 0 && (entries[i].kind == File ==> entries[i].size <= limits.maxFile)
    ensures entries[i].kind == Directory ==> entries[i].size == 0
    ensures (AllIntact(infos, EntriesOf(infos, limits), crc) && entries[i].kind == File
             ==> Intact(index[entries[i].archiveName].data, entries[i], crc))
  {
    RecordIsIndexed(infos, index, entries, entries[i], limits, crc, directories);
    NextPrefix(entries, i);
    CompatiblePrefix(entries, i + 1);
  }

  lemma RecordIsIndexed(infos: seq<Info>, index: map<string, Info>, entries: seq<Entry>, e: Entry, limits: Limits,
                        crc: Checksum, directories: set<string>)
    requires e in entries && Ready(infos, limits, entries, index, directories)
    ensures e.archiveName in index && MadeFrom(infos, limits, e, index[e.archiveName])
    ensures e.size >= 0 && (e.kind == File ==> e.size <= limits.maxFile) && (e.kind == Directory ==> e.size == 0)
    ensures AllIntact(infos, EntriesOf(infos, limits), crc) && e.kind == File ==> Intact(index[e.archiveName].data, e, crc)
  {
    var j := RecordOf(infos, limits, entries, e);
    assert index[e.archiveName] == infos[j];
  }

  /** One entry of the extraction loop. */
  method WriteEntry(ghost infos: seq<Info>, index: map<string, Info>, entries: seq<Entry>, i: nat, limits: Limits,
                    crc: Checksum, sink: StagingSink, actual: nat)
    returns (r: Result<(), ZipError>)
    requires i < |entries| && Ready(infos, limits, entries, index, sink.directories)
    requires FilesWritten(sink.files, infos, limits, crc, entries[..i])
    requires sink.received == actual == Total(entries[..i])
    modifies sink`files, sink`received
    ensures sink.received <= limits.maxTotal
    ensures r.Ok? ==> sink.received == actual + entries[i].size == Total(entries[..i + 1])
                      && FilesWritten(sink.files, infos, limits, crc, entries[..i + 1])
    ensures r.Err? ==> FilesWritten(sink.files, infos, limits, crc, entries[..i])
    ensures AllIntact(infos, EntriesOf(infos, limits), crc) ==> r.Ok?
  {
    WithinTotal(infos, limits, entries, i);
    EntryFacts(infos, index, entries, i, limits, crc, sink.directories);
    if entries[i].kind == Directory {
      DirectoryWritesNothing(sink.files, infos, limits, crc, entries[..i], entries[i]);
      r := Ok(());
    } else {
      FileIsCreatable(sink, infos, limits, crc, entries, i);
      r := WriteFileEntry(infos, entries[..i], index[entries[i].archiveName], entries[i], limits, crc, sink, actual);
    }
  }

  lemma WithinTotal(infos: seq<Info>, limits: Limits, entries: seq<Entry>, i: nat)
    requires AllMade(infos, limits) && entries == Sort(EntriesOf(infos, limits), EntryLe)
    requires i < |entries| && Total(entries) <= limits.maxTotal
    ensures 0 <= Total(entries[..i]) && Total(entries[..i]) + entries[i].size <= limits.maxTotal && entries[i].size >= 0
    ensures Total(entries[..i + 1]) == Total(entries[..i]) + entries[i].size
  {
    SortedSizes(infos, limits, entries);
    TotalGrows(entries, i);
    TotalGrows(entries, i + 1);
    NextPrefix(entries, i);
  }

  lemma FileIsCreatable(sink: StagingSink, infos: seq<Info>, limits: Limits, crc: Checksum, entries: seq<Entry>, i: nat)
    requires Compatible(entries) && i < |entries| && entries[i].kind == File
    requires forall d :: d in sink.directories <==> IsRequired(entries, d)
    requires FilesWritten(sink.files, infos, limits, crc, entries[..i])
    ensures sink.CanCreate(entries[i].path)
  {
    FileCanBeCreated(entries, i);
  }

  /** The extraction loop over a manifest that matches the archive's records. */
  method WriteFiles(infos: seq<Info>, index: map<string, Info>, entries: seq<Entry>, limits: Limits, crc: Checksum,
                    sink: StagingSink)
    returns (r: Result<(), ZipError>, done: nat)
    requires Ready(infos, limits, entries, index, sink.directories)
    requires sink.files == map[] && sink.received == 0
    modifies sink`files, sink`received
    ensures sink.received <= limits.maxTotal
    ensures done <= |entries| && FilesWritten(sink.files, infos, limits, crc, entries[..done])
    ensures r.Ok? ==> done == |entries|
    ensures AllIntact(infos, EntriesOf(infos, limits), crc) ==> r.Ok?
  {
    var actual: nat := 0;
    r, done := Ok(()), 0;
    while done < |entries|
      invariant done <= |entries| && FilesWritten(sink.files, infos, limits, crc, entries[..done])
      invariant sink.received == actual == Total(entries[..done])
      invariant sink.received <= limits.maxTotal && r.Ok?
    {
      r := WriteEntry(infos, index, entries, done, limits, crc, sink, actual);
      if r.Err? {
        break;
      }
      actual := actual + entries[done].size;
      done := done + 1;
    }
  }

  /** The tree of a manifest: its required directories, and its files with verified contents. */
  ghost predicate HoldsTree(directories: set<string>, files: map<string, seq<Byte>>, infos: seq<Info>, limits: Limits,
                            crc: Checksum, m: Manifest) {
    && (forall d :: d in directories <==> IsRequired(m.entries, d))
    && FilesWritten(files, infos, limits, crc, m.entries)
  }

  /**
   `materialize_zip_archive`. Success leaves exactly the manifest's tree;
   whatever happens, the bytes handed out stay within the total limit; and the
   manifest of a validated archive succeeds on that archive unless it names a
   drive.
  */
  method Materialize(archive: Archive, m: Manifest, sink: StagingSink, limits: Limits, crc: Checksum)
    returns (r: Result<(), ZipError>)
    requires sink.directories == {} && sink.files == map[] && sink.received == 0
    modifies sink
    ensures sink.received <= limits.maxTotal
    ensures r.Ok? ==> ManifestOk(m, limits) && HoldsTree(sink.directories, sink.files, archive.infos, limits, crc, m)
    ensures r.Err? ==> forall d :: d in sink.directories ==> IsRequired(m.entries, d)
    ensures r.Err? ==> forall p :: p in sink.files ==> exists e :: e in m.entries && e.kind == File && e.path == p
    ensures (ArchiveOk(archive, limits, crc) && m == ManifestOf(archive, limits)
             && forall e :: e in m.entries ==> !HasDrive(e.path)) ==> r.Ok?
  {
    if ArchiveOk(archive, limits, crc) {
      ValidatedManifestIsAccepted(archive, limits, crc);
    }
    var accepted := ValidateManifest(m, limits);
    if accepted.Err? {
      return accepted;
    }
    MakeDirectories(m.entries, sink);
    if archive.size > limits.maxUpload {
      return Err(UploadTooLarge);
    }
    if archive.size != m.archiveSize {
      return Err(ArchiveChanged);
    }
    if !archive.readable {
      return Err(Unreadable);
    }
    var structure := ValidateStructure(archive.infos, limits);
    if structure.Err? {
      return Err(structure.error);
    }
    if Sort(structure.value, EntryLe) != m.entries {
      return Err(ArchiveChanged);
    }
    var index := IndexByName(archive.infos, limits);
    var done;
    r, done := WriteFiles(archive.infos, index, m.entries, limits, crc, sink);
    assert m.entries[..|m.entries|] == m.entries;
    assert forall e :: e in m.entries[..done] ==> e in m.entries;
  }
}
