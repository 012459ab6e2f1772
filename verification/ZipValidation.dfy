/**
 `validate_zip_archive` and `_validate_materialization_manifest`: two
 independent validators that see the same entries in different orders.
*/
module ZipValidation {
  import opened Wrappers
  import opened ZipPaths
  import opened ZipArchives
  import opened Sorting

  // ------------------------------------------------------------- the ordering

  /** (depth, files after directories, path). */
  predicate EntryLe(a: Entry, b: Entry) {
    var da, db := CountSlashes(a.path), CountSlashes(b.path);
    da < db || (da == db && (
      (a.kind == Directory && b.kind == File) || (a.kind == b.kind && LexLe(a.path, b.path))))
  }

  lemma EntryOrder()
    ensures TotalPreorder(EntryLe)
  {
    forall a, b ensures EntryLe(a, b) || EntryLe(b, a) {
      LexTotal(a.path, b.path);
    }
    forall a, b, c | EntryLe(a, b) && EntryLe(b, c) ensures EntryLe(a, c) {
      if LexLe(a.path, b.path) && LexLe(b.path, c.path) {
        LexTransitive(a.path, b.path, c.path);
      }
    }
  }

  // ------------------------------------------------------ working directory

  predicate IsTopDirectory(entries: seq<Entry>, top: string) {
    exists e :: e in entries && ((e.path == top && e.kind == Directory) || Below(e.path, top))
  }

  function Top(path: string): string {
    Split(path)[0]
  }

  /** The one top-level directory everything is in, or ".". */
  function CwdRel(entries: seq<Entry>): string {
    if entries == [] then "."
    else
      var top := Top(entries[0].path);
      if (exists e :: e in entries && Top(e.path) != top) then "."
      else if IsTopDirectory(entries, top) then top
      else "."
  }

  lemma TopIsPrefix(path: string)
    ensures path == Top(path) || Below(path, Top(path))
  {
    JoinSplit(path);
    var parts := Split(path);
    if |parts| > 1 {
      AncestorIsStringPrefix(path, Top(path));
      assert Ancestor(path, 1) == parts[0];
    }
  }

  /** A named working directory contains every entry. */
  lemma CwdContainsEverything(entries: seq<Entry>, e: Entry)
    requires CwdRel(entries) != "." && e in entries
    ensures e.path == CwdRel(entries) || Below(e.path, CwdRel(entries))
  {
    TopIsPrefix(e.path);
  }

  lemma TopIs(path: string, t: string)
    requires NoSlash(t)
    ensures Top(path) == t <==> path == t || Below(path, t)
  {
    TopIsPrefix(path);
    if path == t {
      SplitOne(t);
    } else if Below(path, t) {
      SplitOne(t);
      SplitAtSlash(t, path[|t| + 1..]);
      assert path == t + "/" + path[|t| + 1..];
    }
  }

  /** Exactly when a directory is the working directory: everything is in it, and it is not just a file of that name. */
  lemma CwdIsNamedIff(entries: seq<Entry>, t: string)
    requires NoSlash(t) && t != "."
    ensures CwdRel(entries) == t <==>
      && entries != [] && (forall e :: e in entries ==> e.path == t || Below(e.path, t))
      && exists e :: e in entries && (Below(e.path, t) || (e.path == t && e.kind == Directory))
  {
    forall e | e in entries ensures Top(e.path) == t <==> e.path == t || Below(e.path, t) {
      TopIs(e.path, t);
    }
    if entries != [] {
      assert entries[0] in entries;
    }
  }

  lemma CwdIgnoresOrder(a: seq<Entry>, b: seq<Entry>)
    requires multiset(a) == multiset(b)
    ensures CwdRel(a) == CwdRel(b)
  {
    assert forall e :: e in a <==> e in multiset(a);
    assert forall e :: e in b <==> e in multiset(b);
    assert |multiset(a)| == |a| && |multiset(b)| == |b|;
    if a != [] {
      assert a[0] in b && b[0] in a;
    }
  }

  // ---------------------------------------------------------- reading members

  function Bytes(chunks: seq<seq<Byte>>): nat {
    if chunks == [] then 0 else Bytes(chunks[..|chunks| - 1]) + |chunks[|chunks| - 1]|
  }

  function Concat(chunks: seq<seq<Byte>>): (r: seq<Byte>)
    ensures |r| == Bytes(chunks)
  {
    if chunks == [] then [] else Concat(chunks[..|chunks| - 1]) + chunks[|chunks| - 1]
  }

  /** CRC-32 is left abstract. */
  type Checksum = seq<Byte> -> nat

  /** A member whose data is complete, of the declared size and of the declared checksum. */
  ghost predicate Intact(data: Member, e: Entry, crc: Checksum) {
    !data.broken && Bytes(data.chunks) == e.size && crc(Concat(data.chunks)) == e.crc
  }

  /**
   `_iter_info_chunks`, exhausted: everything it yields, and how it ends. The
   limits hold for what was yielded even when it ends in an error.
  */
  method ReadMember(info: Info, e: Entry, limits: Limits, totalBefore: nat, crc: Checksum)
    returns (yielded: seq<seq<Byte>>, r: Result<(), ZipError>)
    requires totalBefore <= limits.maxTotal
    ensures yielded <= info.data.chunks
    ensures Bytes(yielded) <= limits.maxFile && totalBefore + Bytes(yielded) <= limits.maxTotal
    ensures r.Ok? ==> yielded == info.data.chunks && Intact(info.data, e, crc)
    ensures Intact(info.data, e, crc) && e.size <= limits.maxFile && totalBefore + e.size <= limits.maxTotal ==> r.Ok?
  {
    var chunks := info.data.chunks;
    var actual := 0;
    yielded := [];
    for i := 0 to |chunks|
      invariant yielded == chunks[..i] && actual == Bytes(yielded)
      invariant actual <= limits.maxFile && totalBefore + actual <= limits.maxTotal
    {
      assert chunks[..i + 1] == chunks[..i] + [chunks[i]];
      assert chunks[..i + 1][..i] == chunks[..i];
      actual := actual + |chunks[i]|;
      BytesGrow(chunks, i + 1);
      if actual > limits.maxFile {
        return yielded, Err(FileTooLarge);
      }
      if totalBefore + actual > limits.maxTotal {
        return yielded, Err(TotalTooLarge);
      }
      yielded := yielded + [chunks[i]];
    }
    assert chunks[..|chunks|] == chunks;
    if info.data.broken {
      return yielded, Err(Unreadable);
    }
    if actual != e.size {
      return yielded, Err(SizeMismatch);
    }
    if crc(Concat(yielded)) != e.crc {
      return yielded, Err(CrcMismatch);
    }
    return yielded, Ok(());
  }

  lemma {:induction false} BytesGrow(chunks: seq<seq<Byte>>, n: nat)
    requires n <= |chunks|
    ensures Bytes(chunks[..n]) <= Bytes(chunks)
    decreases |chunks|
  {
    if n < |chunks| {
      var front := chunks[..|chunks| - 1];
      BytesGrow(front, n);
      assert front[..n] == chunks[..n];
    } else {
      assert chunks[..n] == chunks;
    }
  }

  // ------------------------------------------------------ the first validator

  /** `_validate_structure`: accepts exactly the good structures, in whatever order they come. */
  method ValidateStructure(infos: seq<Info>, limits: Limits) returns (r: Result<seq<Entry>, ZipError>)
    ensures r.Ok? <==> StructureOk(infos, limits)
    ensures r.Ok? ==> r.value == EntriesOf(infos, limits)
  {
    if |infos| > limits.maxEntries {
      return Err(TooManyEntries);
    }
    var byPath: map<string, Entry> := map[];
    var entries: seq<Entry> := [];
    var total := 0;
    for i := 0 to |infos|
      invariant AllMade(infos[..i], limits) && entries == EntriesOf(infos[..i], limits)
      invariant Recorded(byPath, entries) && Compatible(entries)
      invariant total == Total(entries) <= limits.maxTotal
    {
      var made := EntryOf(infos[i], limits);
      if made.Err? {
        return Err(made.error);
      }
      OneMore(infos, limits, i);
      var admitted := Admit(byPath, made.value, entries);
      entries := entries + [made.value];
      total := total + made.value.size;
      PrefixDecides(infos, limits, i + 1);
      if admitted.Err? {
        return Err(admitted.error);
      }
      byPath := admitted.value;
      if total > limits.maxTotal {
        return Err(TotalTooLarge);
      }
    }
    assert infos[..|infos|] == infos;
    return Ok(entries);
  }

  lemma OneMore(infos: seq<Info>, limits: Limits, i: nat)
    requires i < |infos| && AllMade(infos[..i], limits) && EntryOf(infos[i], limits).Ok?
    ensures AllMade(infos[..i + 1], limits)
    ensures var e := EntryOf(infos[i], limits).value;
            && EntriesOf(infos[..i + 1], limits) == EntriesOf(infos[..i], limits) + [e]
            && Total(EntriesOf(infos[..i], limits) + [e]) == Total(EntriesOf(infos[..i], limits)) + e.size
  {
    var front := EntriesOf(infos[..i], limits);
    assert infos[..i + 1] == infos[..i] + [infos[i]];
    assert (front + [EntryOf(infos[i], limits).value])[..i] == front;
  }

  lemma SizesAreNatural(infos: seq<Info>, limits: Limits)
    requires AllMade(infos, limits)
    ensures forall e :: e in EntriesOf(infos, limits) ==> e.size >= 0
  {
    forall e | e in EntriesOf(infos, limits) ensures e.size >= 0 {
      var i :| 0 <= i < |infos| && EntriesOf(infos, limits)[i] == e;
      assert EntryOf(infos[i], limits) == Ok(e);
    }
  }

  /** A prefix that is in conflict or too large condemns the whole archive. */
  lemma PrefixDecides(infos: seq<Info>, limits: Limits, n: nat)
    requires n <= |infos| && AllMade(infos[..n], limits)
    ensures var bad := EntriesOf(infos[..n], limits);
            !Compatible(bad) || Total(bad) > limits.maxTotal ==> !StructureOk(infos, limits)
  {
    if StructureOk(infos, limits) {
      var entries := EntriesOf(infos, limits);
      assert EntriesOf(infos[..n], limits) == entries[..n];
      CompatiblePrefix(entries, n);
      SizesAreNatural(infos, limits);
      TotalGrows(entries, n);
    }
  }

  /** Every file among the records has complete, matching data. */
  ghost predicate AllIntact(infos: seq<Info>, made: seq<Entry>, crc: Checksum)
    requires |infos| == |made|
  {
    forall i :: 0 <= i < |made| && made[i].kind == File ==> Intact(infos[i].data, made[i], crc)
  }

  /** Exactly the archives `validate_zip_archive` accepts. */
  ghost predicate ArchiveOk(archive: Archive, limits: Limits, crc: Checksum) {
    && archive.readable && archive.size <= limits.maxUpload
    && StructureOk(archive.infos, limits)
    && AllIntact(archive.infos, EntriesOf(archive.infos, limits), crc)
  }

  /** The manifest of an accepted archive. */
  function ManifestOf(archive: Archive, limits: Limits): Manifest
    requires AllMade(archive.infos, limits)
  {
    var entries := Sort(EntriesOf(archive.infos, limits), EntryLe);
    Manifest(entries, Total(EntriesOf(archive.infos, limits)), CwdRel(entries), archive.size)
  }

  /** One turn of the inflating loop: directories are skipped, a file is read to its end. */
  method ReadOne(info: Info, e: Entry, limits: Limits, total: nat, crc: Checksum) returns (r: Result<nat, ZipError>)
    requires e.size >= 0 && total + e.size <= limits.maxTotal
    requires if e.kind == File then e.size <= limits.maxFile else e.size == 0
    ensures r.Ok? <==> e.kind == Directory || Intact(info.data, e, crc)
    ensures r.Ok? ==> r.value == total + e.size
  {
    if e.kind == Directory {
      r := Ok(total);
    } else {
      var yielded, read := ReadMember(info, e, limits, total, crc);
      r := if read.Err? then Err(read.error) else Ok(total + Bytes(yielded));
    }
  }

  lemma TotalOfNext(pairs: seq<Entry>, i: nat)
    requires i < |pairs| && forall k :: 0 <= k < |pairs| ==> pairs[k].size >= 0
    ensures 0 <= Total(pairs[..i]) && Total(pairs[..i + 1]) == Total(pairs[..i]) + pairs[i].size <= Total(pairs)
  {
    TotalGrows(pairs, i);
    TotalGrows(pairs, i + 1);
    assert pairs[..i + 1][..i] == pairs[..i];
  }

  lemma RoomForNext(infos: seq<Info>, limits: Limits, pairs: seq<Entry>, i: nat)
    requires StructureOk(infos, limits) && pairs == EntriesOf(infos, limits) && i < |pairs|
    ensures 0 <= Total(pairs[..i]) && Total(pairs[..i + 1]) == Total(pairs[..i]) + pairs[i].size <= limits.maxTotal
    ensures pairs[i].size >= 0 && if pairs[i].kind == File then pairs[i].size <= limits.maxFile else pairs[i].size == 0
  {
    SizesAreNatural(infos, limits);
    TotalOfNext(pairs, i);
    EntryShape(infos[i], limits, pairs[i]);
  }

  /** The first `n` files have been read to their ends. */
  ghost predicate IntactUpTo(infos: seq<Info>, pairs: seq<Entry>, n: nat, crc: Checksum)
    requires n <= |pairs| == |infos|
  {
    forall k :: 0 <= k < n && pairs[k].kind == File ==> Intact(infos[k].data, pairs[k], crc)
  }

  lemma IntactStep(infos: seq<Info>, pairs: seq<Entry>, n: nat, crc: Checksum)
    requires n < |pairs| == |infos|
    ensures pairs[n].kind == File && !Intact(infos[n].data, pairs[n], crc) ==> !AllIntact(infos, pairs, crc)
    ensures (IntactUpTo(infos, pairs, n, crc) && (pairs[n].kind == Directory || Intact(infos[n].data, pairs[n], crc))
             ==> IntactUpTo(infos, pairs, n + 1, crc))
  {
  }

  /** The inflating loop of `validate_zip_archive`: every file read to its end. */
  method ReadAll(infos: seq<Info>, limits: Limits, pairs: seq<Entry>, crc: Checksum)
    returns (r: Result<nat, ZipError>)
    requires StructureOk(infos, limits) && pairs == EntriesOf(infos, limits)
    ensures r.Ok? <==> AllIntact(infos, pairs, crc)
    ensures r.Ok? ==> r.value == Total(pairs)
  {
    r := Ok(0);
    var i := 0;
    while i < |pairs| && r.Ok?
      invariant i <= |pairs|
      invariant r.Ok? ==> r.value == Total(pairs[..i]) && IntactUpTo(infos, pairs, i, crc)
      invariant r.Err? ==> !AllIntact(infos, pairs, crc)
    {
      RoomForNext(infos, limits, pairs, i);
      IntactStep(infos, pairs, i, crc);
      r := ReadOne(infos[i], pairs[i], limits, r.value, crc);
      i := i + 1;
    }
    assert pairs[..|pairs|] == pairs;
  }

  /** The data of every file record is complete, of the declared size and of the declared checksum. */
  ghost predicate DataIntact(infos: seq<Info>, crc: Checksum) {
    forall i :: 0 <= i < |infos| && !NamesDirectory(infos[i]) ==>
      !infos[i].data.broken && Bytes(infos[i].data.chunks) == infos[i].size && crc(Concat(infos[i].data.chunks)) == infos[i].crc
  }

  /** One entry for each record, and no others. */
  ghost predicate Lists(m: Manifest, infos: seq<Info>) {
    && |m.entries| == |infos|
    && (forall info :: info in infos ==> HasEntry(m.entries, info))
    && (forall e :: e in m.entries ==> HasRecord(infos, e))
  }

  ghost predicate HasEntry(entries: seq<Entry>, info: Info) {
    exists e :: e in entries && Represents(info, e)
  }

  ghost predicate HasRecord(infos: seq<Info>, e: Entry) {
    exists info :: info in infos && Represents(info, e)
  }

  lemma AcceptedIffSound(archive: Archive, limits: Limits, crc: Checksum)
    ensures ArchiveOk(archive, limits, crc)
            <==> archive.readable && archive.size <= limits.maxUpload && Sound(archive.infos, limits)
                 && DataIntact(archive.infos, crc)
  {
    StructureIffSound(archive.infos, limits);
    MadeIffStorable(archive.infos, limits);
    if StructureOk(archive.infos, limits) {
      var made := EntriesOf(archive.infos, limits);
      forall i | 0 <= i < |made|
        ensures made[i].kind == File <==> !NamesDirectory(archive.infos[i])
        ensures made[i].size == archive.infos[i].size && made[i].crc == archive.infos[i].crc
      {
        assert Represents(archive.infos[i], made[i]);
      }
    }
  }

  lemma EntriesMatchRecords(infos: seq<Info>, made: seq<Entry>)
    requires |made| == |infos| && forall i :: 0 <= i < |infos| ==> Represents(infos[i], made[i])
    ensures forall info :: info in infos ==> HasEntry(made, info)
    ensures forall e :: e in made ==> HasRecord(infos, e)
  {
    forall info | info in infos ensures HasEntry(made, info) {
      var i :| 0 <= i < |infos| && infos[i] == info;
      assert made[i] in made && Represents(info, made[i]);
    }
    forall e | e in made ensures HasRecord(infos, e) {
      var i :| 0 <= i < |made| && made[i] == e;
      assert infos[i] in infos && Represents(infos[i], e);
    }
  }

  lemma SameEntries(made: seq<Entry>, entries: seq<Entry>, info: Info)
    requires HasEntry(made, info) && forall e :: e in entries <==> e in made
    ensures HasEntry(entries, info)
  {
    var e :| e in made && Represents(info, e);
    assert e in entries;
  }

  lemma ManifestLists(archive: Archive, limits: Limits)
    requires StructureOk(archive.infos, limits)
    ensures Lists(ManifestOf(archive, limits), archive.infos)
    ensures ManifestOf(archive, limits).totalBytes == DeclaredBytes(archive.infos)
  {
    var infos, entries, made := archive.infos, ManifestOf(archive, limits).entries, EntriesOf(archive.infos, limits);
    StructureIffSound(infos, limits);
    MadeIffStorable(infos, limits);
    ManifestEntries(archive, limits);
    EntriesMatchRecords(infos, made);
    forall info | info in infos ensures HasEntry(entries, info) {
      SameEntries(made, entries, info);
    }
  }

  /** `validate_zip_archive`: structure first, then every file read to its end. */
  method ValidateArchive(archive: Archive, limits: Limits, crc: Checksum) returns (r: Result<Manifest, ZipError>)
    ensures r.Ok? <==> ArchiveOk(archive, limits, crc)
    ensures r.Ok? ==> r.value == ManifestOf(archive, limits)
    // In terms of the records alone.
    ensures r.Ok? <==> archive.readable && archive.size <= limits.maxUpload && Sound(archive.infos, limits)
                       && DataIntact(archive.infos, crc)
    ensures r.Ok? ==> Lists(r.value, archive.infos) && r.value.totalBytes == DeclaredBytes(archive.infos)
                      && r.value.archiveSize == archive.size
  {
    AcceptedIffSound(archive, limits, crc);
    if archive.size > limits.maxUpload {
      r := Err(UploadTooLarge);
    } else if !archive.readable {
      r := Err(Unreadable);
    } else {
      r := ValidateReadable(archive, limits, crc);
      if r.Ok? {
        ManifestLists(archive, limits);
      }
    }
  }

  method ValidateReadable(archive: Archive, limits: Limits, crc: Checksum) returns (r: Result<Manifest, ZipError>)
    ensures r.Ok? <==> StructureOk(archive.infos, limits) && AllIntact(archive.infos, EntriesOf(archive.infos, limits), crc)
    ensures r.Ok? ==> r.value == ManifestOf(archive, limits)
  {
    var structure := ValidateStructure(archive.infos, limits);
    if structure.Err? {
      r := Err(structure.error);
    } else {
      var total := ReadAll(archive.infos, limits, structure.value, crc);
      if total.Err? {
        r := Err(total.error);
      } else {
        var entries := Sort(structure.value, EntryLe);
        r := Ok(Manifest(entries, total.value, CwdRel(entries), archive.size));
      }
    }
  }

  lemma EntryShape(info: Info, limits: Limits, e: Entry)
    requires EntryOf(info, limits) == Ok(e)
    ensures Normalize(info.name) == Ok(e.path) && e.archiveName == info.name != ""
    ensures e.size >= 0 && e.compressed >= 0 && (e.kind == File ==> e.size <= limits.maxFile)
    ensures e.kind == Directory ==> e.size == 0 && !e.executable
  {
  }

  // ----------------------------------------------------- the second validator

  /** The tests on one manifest entry alone. */
  predicate EntryAcceptable(e: Entry, limits: Limits) {
    && Normalize(e.path) == Ok(e.path)
    && e.archiveName != "" && e.size >= 0 && e.compressed >= 0
    && (e.kind == Directory ==> e.size == 0 && !e.executable)
    && (e.kind == File ==> e.size <= limits.maxFile)
  }

  /** Exactly what `_validate_materialization_manifest` accepts. */
  ghost predicate ManifestOk(m: Manifest, limits: Limits) {
    && 0 <= m.archiveSize <= limits.maxUpload
    && |m.entries| <= limits.maxEntries
    && (forall e :: e in m.entries ==> EntryAcceptable(e, limits))
    && Compatible(m.entries)
    && Total(m.entries) <= limits.maxTotal
    && m.totalBytes == Total(m.entries)
    && m.cwd == CwdRel(m.entries)
  }

  /** The same in terms of the entries: what an accepted manifest says of each of them. */
  lemma ManifestAcceptedIff(m: Manifest, limits: Limits)
    ensures ManifestOk(m, limits) <==>
      && 0 <= m.archiveSize <= limits.maxUpload && |m.entries| <= limits.maxEntries
      && (forall e :: e in m.entries ==>
            && Normalize(e.path) == Ok(e.path) && e.archiveName != "" && e.compressed >= 0
            && if e.kind == File then 0 <= e.size <= limits.maxFile else e.size == 0 && !e.executable)
      && Compatible(m.entries) && m.totalBytes == Total(m.entries) <= limits.maxTotal && m.cwd == CwdRel(m.entries)
  {
    assert ManifestOk(m, limits) ==> forall e :: e in m.entries ==> EntryAcceptable(e, limits);
  }

  lemma ManifestPrefixDecides(m: Manifest, limits: Limits, n: nat)
    requires n <= |m.entries|
    ensures !Compatible(m.entries[..n]) || Total(m.entries[..n]) > limits.maxTotal ==> !ManifestOk(m, limits)
  {
    if ManifestOk(m, limits) {
      CompatiblePrefix(m.entries, n);
      assert forall e :: e in m.entries ==> EntryAcceptable(e, limits);
      TotalGrows(m.entries, n);
    }
  }

  /** `_validate_materialization_manifest`. */
  method ValidateManifest(m: Manifest, limits: Limits) returns (r: Result<(), ZipError>)
    ensures r.Ok? <==> ManifestOk(m, limits)
  {
    if m.archiveSize < 0 || m.archiveSize > limits.maxUpload || |m.entries| > limits.maxEntries {
      return Err(InvalidManifest);
    }
    var total := CheckEntries(m, limits);
    if total.Err? {
      return Err(total.error);
    }
    if total.value != m.totalBytes || CwdRel(m.entries) != m.cwd {
      return Err(InvalidManifest);
    }
    return Ok(());
  }

  /** One turn of the loop over the manifest's entries, after those in `before`. */
  method CheckEntry(byPath: map<string, Entry>, e: Entry, total: int, limits: Limits, ghost before: seq<Entry>)
    returns (r: Result<map<string, Entry>, ZipError>)
    requires Recorded(byPath, before) && Compatible(before)
    ensures r.Ok? <==> EntryAcceptable(e, limits) && Compatible(before + [e]) && total + e.size <= limits.maxTotal
    ensures r.Ok? ==> Recorded(r.value, before + [e])
  {
    if !EntryAcceptable(e, limits) {
      r := Err(InvalidManifest);
    } else {
      r := Admit(byPath, e, before);
      if r.Ok? && total + e.size > limits.maxTotal {
        r := Err(TotalTooLarge);
      }
    }
  }

  /** The first `n` entries pass. */
  ghost predicate Checked(entries: seq<Entry>, n: nat, byPath: map<string, Entry>, total: int, limits: Limits)
    requires n <= |entries|
  {
    && Recorded(byPath, entries[..n]) && Compatible(entries[..n])
    && (forall e :: e in entries[..n] ==> EntryAcceptable(e, limits))
    && total == Total(entries[..n]) <= limits.maxTotal
  }

  lemma NextPrefix(entries: seq<Entry>, n: nat)
    requires n < |entries|
    ensures entries[..n + 1] == entries[..n] + [entries[n]]
    ensures Total(entries[..n + 1]) == Total(entries[..n]) + entries[n].size
  {
    assert entries[..n + 1][..n] == entries[..n];
  }

  /** A manifest is refused by the first of its entries that cannot be taken. */
  lemma RefusedStep(m: Manifest, limits: Limits, n: nat)
    requires n < |m.entries|
    requires var e, before := m.entries[n], m.entries[..n];
             !(EntryAcceptable(e, limits) && Compatible(before + [e]) && Total(before) + e.size <= limits.maxTotal)
    ensures !ManifestOk(m, limits)
  {
    NextPrefix(m.entries, n);
    ManifestPrefixDecides(m, limits, n + 1);
  }

  lemma PassedStep(entries: seq<Entry>, limits: Limits, n: nat, byPath: map<string, Entry>, total: int,
                   more: map<string, Entry>)
    requires n < |entries| && Checked(entries, n, byPath, total, limits)
    requires EntryAcceptable(entries[n], limits) && total + entries[n].size <= limits.maxTotal
    requires Compatible(entries[..n] + [entries[n]]) && Recorded(more, entries[..n] + [entries[n]])
    ensures Checked(entries, n + 1, more, total + entries[n].size, limits)
  {
    NextPrefix(entries, n);
    forall e | e in entries[..n + 1] ensures EntryAcceptable(e, limits) {
      assert e in entries[..n] || e == entries[n];
    }
  }

  lemma AllChecked(entries: seq<Entry>, byPath: map<string, Entry>, total: int, limits: Limits)
    requires Checked(entries, |entries|, byPath, total, limits)
    ensures total == Total(entries) <= limits.maxTotal && Compatible(entries)
    ensures forall e :: e in entries ==> EntryAcceptable(e, limits)
  {
    assert entries[..|entries|] == entries;
  }

  lemma NoneChecked(entries: seq<Entry>, limits: Limits)
    ensures Checked(entries, 0, map[], 0, limits)
  {
  }

  /** The next entry, with the running total. */
  method CheckNext(m: Manifest, limits: Limits, n: nat, byPath: map<string, Entry>, total: int)
    returns (ok: bool, error: ZipError, more: map<string, Entry>, sum: int)
    requires n < |m.entries| && Checked(m.entries, n, byPath, total, limits)
    ensures if ok then Checked(m.entries, n + 1, more, sum, limits) else !ManifestOk(m, limits)
  {
    var checked := CheckEntry(byPath, m.entries[n], total, limits, m.entries[..n]);
    if checked.Ok? {
      PassedStep(m.entries, limits, n, byPath, total, checked.value);
    } else {
      RefusedStep(m, limits, n);
    }
    ok, error, more, sum := checked.Ok?, InvalidManifest, byPath, total + m.entries[n].size;
    if ok {
      more := checked.value;
    } else {
      error := checked.error;
    }
  }

  /** The loop over the manifest's entries. */
  method CheckEntries(m: Manifest, limits: Limits) returns (r: Result<int, ZipError>)
    ensures r.Ok? ==> r.value == Total(m.entries) <= limits.maxTotal && Compatible(m.entries)
    ensures r.Ok? ==> forall e :: e in m.entries ==> EntryAcceptable(e, limits)
    ensures r.Err? ==> !ManifestOk(m, limits)
  {
    var byPath: map<string, Entry> := map[];
    var i, total, ok := 0, 0, true;
    var error: ZipError := InvalidManifest;
    NoneChecked(m.entries, limits);
    while i < |m.entries| && ok
      invariant i <= |m.entries|
      invariant if ok then Checked(m.entries, i, byPath, total, limits) else !ManifestOk(m, limits)
    {
      ok, error, byPath, total := CheckNext(m, limits, i, byPath, total);
      i := i + 1;
    }
    if ok {
      AllChecked(m.entries, byPath, total, limits);
    }
    r := if ok then Ok(total) else Err(error);
  }

  // -------------------------------------------------------------- the results

  lemma MadeEntryIsAcceptable(infos: seq<Info>, limits: Limits, e: Entry)
    requires AllMade(infos, limits) && e in EntriesOf(infos, limits)
    ensures EntryAcceptable(e, limits) <==> !HasDrive(e.path)
  {
    var i :| 0 <= i < |infos| && EntriesOf(infos, limits)[i] == e;
    EntryShape(infos[i], limits, e);
    NormalizingTwice(infos[i].name, e.path);
  }

  lemma ManifestEntries(archive: Archive, limits: Limits)
    requires AllMade(archive.infos, limits)
    ensures multiset(ManifestOf(archive, limits).entries) == multiset(EntriesOf(archive.infos, limits))
    ensures |ManifestOf(archive, limits).entries| == |archive.infos|
    ensures forall e :: e in ManifestOf(archive, limits).entries <==> e in EntriesOf(archive.infos, limits)
  {
    var a, b := ManifestOf(archive, limits).entries, EntriesOf(archive.infos, limits);
    assert |multiset(a)| == |a| && |multiset(b)| == |b|;
    assert forall e :: e in a <==> e in multiset(a);
    assert forall e :: e in b <==> e in multiset(b);
  }

  /**
   The two validators agree: the manifest of a validated archive is accepted
   before materialization, except exactly when some normalized path starts with
   a letter and a colon.
  */
  lemma ValidatedManifestIsAccepted(archive: Archive, limits: Limits, crc: Checksum)
    requires ArchiveOk(archive, limits, crc)
    ensures var m := ManifestOf(archive, limits);
            ManifestOk(m, limits) <==> forall e :: e in m.entries ==> !HasDrive(e.path)
  {
    var m := ManifestOf(archive, limits);
    var made := EntriesOf(archive.infos, limits);
    ManifestEntries(archive, limits);
    PermutationKeepsCompatible(made, m.entries);
    PermutationKeepsTotal(made, m.entries);
    forall e | e in m.entries ensures EntryAcceptable(e, limits) <==> !HasDrive(e.path) {
      MadeEntryIsAcceptable(archive.infos, limits, e);
    }
  }

  /** By depth, then directories before files, then by path. */
  ghost predicate ComesBefore(a: Entry, b: Entry) {
    && Depth(a.path) <= Depth(b.path)
    && (Depth(a.path) == Depth(b.path) && b.kind == Directory ==> a.kind == Directory)
    && (Depth(a.path) == Depth(b.path) && a.kind == b.kind ==> Alphabetical(a.path, b.path))
  }

  lemma OrderedComesBefore(a: Entry, b: Entry)
    requires EntryLe(a, b)
    ensures ComesBefore(a, b)
  {
    SlashesAreDepth(a.path);
    SlashesAreDepth(b.path);
    LexIsAlphabetical(a.path, b.path);
  }

  /** Sorted order: directories of a level before its files, and levels from the top down. */
  lemma ManifestIsSorted(archive: Archive, limits: Limits)
    requires AllMade(archive.infos, limits)
    ensures SortedBy(ManifestOf(archive, limits).entries, EntryLe)
    ensures var entries := ManifestOf(archive, limits).entries;
            forall i, j :: 0 <= i < j < |entries| ==> ComesBefore(entries[i], entries[j])
  {
    EntryOrder();
    SortIsSorted(EntriesOf(archive.infos, limits), EntryLe);
    var entries := ManifestOf(archive, limits).entries;
    forall i, j | 0 <= i < j < |entries| ensures ComesBefore(entries[i], entries[j]) {
      OrderedComesBefore(entries[i], entries[j]);
    }
  }

  /** Among entries with distinct paths the order is total: only an entry itself is both below and above it. */
  lemma EntryOrderSeparates(entries: seq<Entry>, a: Entry, b: Entry)
    requires Compatible(entries) && a in entries && b in entries && EntryLe(a, b) && EntryLe(b, a)
    ensures a == b
  {
    LexAntisymmetric(a.path, b.path);
    var i :| 0 <= i < |entries| && entries[i] == a;
    var j :| 0 <= j < |entries| && entries[j] == b;
    assert entries[i].path == entries[j].path;
  }

  /** Sorting brings any arrangement of the same entries with distinct paths into one. */
  lemma SortForgetsOrder(a: seq<Entry>, b: seq<Entry>)
    requires multiset(a) == multiset(b) && Compatible(a)
    ensures Sort(a, EntryLe) == Sort(b, EntryLe)
  {
    var s, t := Sort(a, EntryLe), Sort(b, EntryLe);
    EntryOrder();
    SortIsSorted(a, EntryLe);
    SortIsSorted(b, EntryLe);
    PermutationKeepsCompatible(a, s);
    forall x, y | x in s && y in s && EntryLe(x, y) && EntryLe(y, x) ensures x == y {
      EntryOrderSeparates(s, x, y);
    }
    SortedIsUnique(s, t, EntryLe);
  }

  /**
   The manifest does not depend on the order of the records, entries included,
   so the comparison made before materialization does not either. Without the
   structural check this is still so up to the order of the entries.
  */
  lemma ManifestIgnoresRecordOrder(a: Archive, b: Archive, limits: Limits)
    requires multiset(a.infos) == multiset(b.infos) && a.size == b.size && AllMade(a.infos, limits)
    ensures AllMade(b.infos, limits)
    ensures var m, n := ManifestOf(a, limits), ManifestOf(b, limits);
            multiset(m.entries) == multiset(n.entries) && m == n.(entries := m.entries)
    ensures StructureOk(a.infos, limits) ==> ManifestOf(a, limits) == ManifestOf(b, limits)
  {
    PermutedEntries(a.infos, b.infos, limits);
    PermutationKeepsTotal(EntriesOf(a.infos, limits), EntriesOf(b.infos, limits));
    CwdIgnoresOrder(ManifestOf(a, limits).entries, ManifestOf(b, limits).entries);
    if StructureOk(a.infos, limits) {
      SortForgetsOrder(EntriesOf(a.infos, limits), EntriesOf(b.infos, limits));
    }
  }
}
