/**
 Structural validation of ZIP archives (`archive_safety.py`): the entry made of
 each directory record, the conflict checks of `_validate_structure`, reading a
 member within its limits, and the manifest check made before materialization.
*/
module ZipArchives {
  import opened Wrappers
  import opened ZipPaths
  import U = Utf8Preview

  type Byte = n: int | 0 <= n < 256

  datatype Limits = Limits(maxUpload: nat, maxEntries: nat, maxFile: nat, maxTotal: nat, maxPath: nat)

  datatype Kind = File | Directory

  /** What reading a member yields: non-empty chunks, then the end or a read error. */
  datatype Member = Member(chunks: seq<seq<Byte>>, broken: bool)

  /**
   One record of the central directory. `mode` is the upper half of the external
   attributes; `linkExtra` says whether the extra fields carry link metadata or
   are malformed.
  */
  datatype Info = Info(
    name: string, encrypted: bool, mode: nat, linkExtra: bool,
    size: int, compressed: int, crc: nat, data: Member)

  datatype Entry = Entry(
    path: string, kind: Kind, size: int, compressed: int, crc: nat, executable: bool, archiveName: string)

  datatype Archive = Archive(size: nat, readable: bool, infos: seq<Info>)

  datatype Manifest = Manifest(entries: seq<Entry>, totalBytes: int, cwd: string, archiveSize: int)

  datatype ZipError =
    | PathRejected(reason: PathError)
    | PathTooLong | Encrypted | SpecialEntry | TypeMismatch | FileTooLarge | InvalidSizes
    | TooManyEntries | DuplicatePath | PathConflict | TotalTooLarge
    | Unreadable | SizeMismatch | CrcMismatch
    | UploadTooLarge | InvalidManifest | ArchiveChanged

  // ----------------------------------------------------------------- entries

  function Utf8Length(s: string): nat {
    if s == "" then 0
    else
      var n := s[0] as int;
      (if n < 0x80 then 1 else if n < 0x800 then 2 else if n < 0x1_0000 then 3 else 4) + Utf8Length(s[1..])
  }

  function CodePoints(s: string): (cs: seq<U.CodePoint>)
    ensures |cs| == |s|
  {
    if s == "" then [] else [s[0] as int] + CodePoints(s[1..])
  }

  /** The length of `s.encode("utf-8")`. */
  lemma {:induction false} Utf8LengthIsEncoded(s: string)
    ensures Utf8Length(s) == |U.EncodeAll(CodePoints(s))|
  {
    if s != "" {
      Utf8LengthIsEncoded(s[1..]);
      assert CodePoints(s)[1..] == CodePoints(s[1..]);
    }
  }

  const REGULAR: nat := 0x8000
  const DIRECTORY: nat := 0x4000

  function FileType(mode: nat): nat {
    (mode / 0x1000) % 0x10 * 0x1000
  }

  /** `mode & 0o111`. */
  predicate AnyExecuteBit(mode: nat) {
    mode % 2 == 1 || (mode / 8) % 2 == 1 || (mode / 64) % 2 == 1
  }

  predicate EndsWithSlash(s: string) {
    s != "" && s[|s| - 1] == '/'
  }

  /** `_entry_from_info`. */
  function EntryOf(info: Info, limits: Limits): Result<Entry, ZipError> {
    if Utf8Length(info.name) > limits.maxPath then Err(PathTooLong)
    else
      var normalized := Normalize(info.name);
      if normalized.Err? then Err(PathRejected(normalized.error))
      else
        var path := normalized.value;
        var fileType := FileType(info.mode);
        var kind := if EndsWithSlash(info.name) then Directory else File;
        if Utf8Length(path) > limits.maxPath then Err(PathTooLong)
        else if info.encrypted then Err(Encrypted)
        else if fileType != 0 && fileType != REGULAR && fileType != DIRECTORY then Err(SpecialEntry)
        else if fileType != 0 && (fileType == DIRECTORY) != (kind == Directory) then Err(TypeMismatch)
        else if info.linkExtra then Err(SpecialEntry)
        else if kind == Directory && info.size != 0 then Err(TypeMismatch)
        else if kind == File && info.size > limits.maxFile then Err(FileTooLarge)
        else if info.size < 0 || info.compressed < 0 then Err(InvalidSizes)
        else Ok(Entry(path, kind, if kind == File then info.size else 0, info.compressed, info.crc,
                      kind == File && AnyExecuteBit(info.mode), info.name))
  }

  // --------------------------------------------- what a record has to satisfy

  /** The name of a directory record ends with a slash. */
  predicate NamesDirectory(info: Info) {
    info.name != "" && info.name[|info.name| - 1] == '/'
  }

  /** The type bits say nothing, or a regular file, or a directory, and agree with the name. */
  ghost predicate TypeAgrees(info: Info) {
    var bits := info.mode / 4096 % 16;
    bits == 0 || (bits == 4 && NamesDirectory(info)) || (bits == 8 && !NamesDirectory(info))
  }

  ghost predicate SizesFit(info: Info, limits: Limits) {
    && info.size >= 0 && info.compressed >= 0
    && if NamesDirectory(info) then info.size == 0 else info.size <= limits.maxFile
  }

  ghost predicate NameFits(info: Info, limits: Limits) {
    && |U.EncodeAll(CodePoints(info.name))| <= limits.maxPath
    && Normalize(info.name).Ok?
    && |U.EncodeAll(CodePoints(Normalize(info.name).value))| <= limits.maxPath
  }

  /** What a record must satisfy on its own: above all it is no link, no device, and not encrypted. */
  ghost predicate Storable(info: Info, limits: Limits) {
    NameFits(info, limits) && !info.encrypted && !info.linkExtra && TypeAgrees(info) && SizesFit(info, limits)
  }

  /** The entry made of a record; it is executable if it is a file that anyone may execute. */
  ghost predicate Represents(info: Info, e: Entry) {
    && Normalize(info.name) == Ok(e.path) && e.archiveName == info.name
    && e.kind == (if NamesDirectory(info) then Directory else File)
    && e.size == info.size && e.compressed == info.compressed && e.crc == info.crc
    && (e.executable <==> !NamesDirectory(info)
                          && (info.mode / 64 % 2 == 1 || info.mode / 8 % 2 == 1 || info.mode % 2 == 1))
  }

  lemma EntryIffStorable(info: Info, limits: Limits)
    ensures EntryOf(info, limits).Ok? <==> Storable(info, limits)
    ensures EntryOf(info, limits).Ok? ==> Represents(info, EntryOf(info, limits).value)
  {
    Utf8LengthIsEncoded(info.name);
    if Normalize(info.name).Ok? {
      Utf8LengthIsEncoded(Normalize(info.name).value);
    }
  }

  /** Why a record is refused: the first of these reasons, in the order of the checks. */
  lemma RefusalsHaveTheirReasons(info: Info, limits: Limits)
    ensures var r, bits := EntryOf(info, limits), info.mode / 4096 % 16;
            && (r == Err(Encrypted) <==> NameFits(info, limits) && info.encrypted)
            && (r == Err(SpecialEntry) <==> NameFits(info, limits) && !info.encrypted
                                            && (bits !in {0, 4, 8} || (TypeAgrees(info) && info.linkExtra)))
            && (r == Err(TypeMismatch) <==>
                  && NameFits(info, limits) && !info.encrypted && bits in {0, 4, 8}
                  && (!TypeAgrees(info) || (!info.linkExtra && NamesDirectory(info) && info.size != 0)))
            && (r == Err(FileTooLarge) <==>
                  && NameFits(info, limits) && !info.encrypted && TypeAgrees(info) && !info.linkExtra
                  && !NamesDirectory(info) && info.size > limits.maxFile)
            && (!NameFits(info, limits) ==>
                  r == if |U.EncodeAll(CodePoints(info.name))| > limits.maxPath || Normalize(info.name).Ok? then Err(PathTooLong)
                       else Err(PathRejected(Normalize(info.name).error)))
  {
    Utf8LengthIsEncoded(info.name);
    if Normalize(info.name).Ok? {
      Utf8LengthIsEncoded(Normalize(info.name).value);
    }
  }

  // ------------------------------------------------- what a good archive is

  /** A file at `a` and something below it, or the other way round. */
  predicate Conflict(a: Entry, b: Entry) {
    (a.kind == File && Below(b.path, a.path)) || (b.kind == File && Below(a.path, b.path))
  }

  /** Distinct paths, and no entry below a file: says nothing about the order. */
  ghost predicate Compatible(entries: seq<Entry>) {
    && (forall i, j :: 0 <= i < j < |entries| ==> entries[i].path != entries[j].path)
    && (forall a, b :: a in entries && b in entries ==> !Conflict(a, b))
  }

  function Total(entries: seq<Entry>): int {
    if entries == [] then 0 else Total(entries[..|entries| - 1]) + entries[|entries| - 1].size
  }

  ghost predicate AllMade(infos: seq<Info>, limits: Limits) {
    forall i :: 0 <= i < |infos| ==> EntryOf(infos[i], limits).Ok?
  }

  function EntriesOf(infos: seq<Info>, limits: Limits): (entries: seq<Entry>)
    requires AllMade(infos, limits)
    ensures |entries| == |infos|
    ensures forall i :: 0 <= i < |infos| ==> EntryOf(infos[i], limits) == Ok(entries[i])
  {
    seq(|infos|, i requires 0 <= i < |infos| && EntryOf(infos[i], limits).Ok? => EntryOf(infos[i], limits).value)
  }

  /** Exactly what `_validate_structure` accepts. */
  ghost predicate StructureOk(infos: seq<Info>, limits: Limits) {
    && |infos| <= limits.maxEntries
    && AllMade(infos, limits)
    && Compatible(EntriesOf(infos, limits))
    && Total(EntriesOf(infos, limits)) <= limits.maxTotal
  }

  /** The sizes the file records declare. */
  function DeclaredBytes(infos: seq<Info>): int {
    if infos == [] then 0
    else
      var last := infos[|infos| - 1];
      DeclaredBytes(infos[..|infos| - 1]) + if NamesDirectory(last) then 0 else last.size
  }

  /** The path of one record lies below that of another, which is a file. */
  ghost predicate IsBelowFile(info: Info, file: Info) {
    && Normalize(info.name).Ok? && Normalize(file.name).Ok? && !NamesDirectory(file)
    && Below(Normalize(info.name).value, Normalize(file.name).value)
  }

  /** No two records have the same path, and no file has anything below it. */
  ghost predicate PathsFit(infos: seq<Info>) {
    && (forall i, j :: 0 <= i < j < |infos| ==> Normalize(infos[i].name) != Normalize(infos[j].name))
    && (forall i, j :: 0 <= i < |infos| && 0 <= j < |infos| ==> !IsBelowFile(infos[j], infos[i]))
  }

  /** What an archive must satisfy before anything is read from it, in terms of its records. */
  ghost predicate Sound(infos: seq<Info>, limits: Limits) {
    && |infos| <= limits.maxEntries
    && (forall i :: 0 <= i < |infos| ==> Storable(infos[i], limits))
    && PathsFit(infos)
    && DeclaredBytes(infos) <= limits.maxTotal
  }

  lemma MadeIffStorable(infos: seq<Info>, limits: Limits)
    ensures AllMade(infos, limits) <==> forall i :: 0 <= i < |infos| ==> Storable(infos[i], limits)
    ensures AllMade(infos, limits)
            ==> forall i :: 0 <= i < |infos| ==> Represents(infos[i], EntriesOf(infos, limits)[i])
  {
    forall i | 0 <= i < |infos|
      ensures EntryOf(infos[i], limits).Ok? <==> Storable(infos[i], limits)
      ensures EntryOf(infos[i], limits).Ok? ==> Represents(infos[i], EntryOf(infos[i], limits).value)
    {
      EntryIffStorable(infos[i], limits);
    }
  }

  lemma {:induction false} TotalIsDeclared(infos: seq<Info>, entries: seq<Entry>)
    requires |entries| == |infos| && forall i :: 0 <= i < |infos| ==> Represents(infos[i], entries[i])
    requires forall i :: 0 <= i < |infos| && NamesDirectory(infos[i]) ==> infos[i].size == 0
    ensures Total(entries) == DeclaredBytes(infos)
  {
    if infos != [] {
      TotalIsDeclared(infos[..|infos| - 1], entries[..|infos| - 1]);
    }
  }

  lemma CompatibleIffPathsFit(infos: seq<Info>, entries: seq<Entry>)
    requires |entries| == |infos| && forall i :: 0 <= i < |infos| ==> Represents(infos[i], entries[i])
    ensures Compatible(entries) <==> PathsFit(infos)
  {
    if PathsFit(infos) {
      forall a, b | a in entries && b in entries ensures !Conflict(a, b) {
        var i :| 0 <= i < |entries| && entries[i] == a;
        var j :| 0 <= j < |entries| && entries[j] == b;
        assert Represents(infos[i], a) && Represents(infos[j], b);
      }
      forall i, j | 0 <= i < j < |entries| ensures entries[i].path != entries[j].path {
        assert Represents(infos[i], entries[i]) && Represents(infos[j], entries[j]);
      }
    }
    if Compatible(entries) {
      forall i, j | 0 <= i < |infos| && 0 <= j < |infos| ensures !IsBelowFile(infos[j], infos[i]) {
        assert Represents(infos[i], entries[i]) && Represents(infos[j], entries[j]);
        assert !Conflict(entries[i], entries[j]);
      }
      forall i, j | 0 <= i < j < |infos| ensures Normalize(infos[i].name) != Normalize(infos[j].name) {
        assert Represents(infos[i], entries[i]) && Represents(infos[j], entries[j]);
      }
    }
  }

  lemma StructureIffSound(infos: seq<Info>, limits: Limits)
    ensures StructureOk(infos, limits) <==> Sound(infos, limits)
    ensures StructureOk(infos, limits) ==> Total(EntriesOf(infos, limits)) == DeclaredBytes(infos)
  {
    MadeIffStorable(infos, limits);
    if AllMade(infos, limits) {
      var entries := EntriesOf(infos, limits);
      CompatibleIffPathsFit(infos, entries);
      TotalIsDeclared(infos, entries);
    }
  }

  lemma {:induction false} TotalGrows(entries: seq<Entry>, n: nat)
    requires n <= |entries| && forall i :: 0 <= i < |entries| ==> entries[i].size >= 0
    ensures 0 <= Total(entries[..n]) <= Total(entries)
    decreases |entries|
  {
    if n < |entries| {
      var front := entries[..|entries| - 1];
      TotalGrows(front, n);
      assert front[..n] == entries[..n];
    } else {
      assert entries[..n] == entries;
      if n > 0 {
        TotalGrows(entries[..n - 1], n - 1);
        assert entries[..n - 1][..n - 1] == entries[..n - 1];
      }
    }
  }

  // ------------------------------------------- order does not matter (lemmas)

  lemma TwoOfOne<T>(s: seq<T>, i: nat, j: nat)
    requires i < j < |s| && s[i] == s[j]
    ensures multiset(s)[s[i]] >= 2
  {
    assert s == s[..i] + [s[i]] + s[i + 1..j] + [s[j]] + s[j + 1..];
  }

  lemma {:induction false} TwoPlaces<T>(s: seq<T>, x: T)
    requires multiset(s)[x] >= 2
    ensures exists i, j :: 0 <= i < j < |s| && s[i] == x && s[j] == x
  {
    assert x in s;
    var i :| 0 <= i < |s| && s[i] == x;
    assert s == s[..i] + [s[i]] + s[i + 1..];
    if x in s[..i] {
      var k :| 0 <= k < i && s[k] == x;
    } else {
      assert multiset(s[..i])[x] == 0;
      assert x in s[i + 1..];
      var k :| 0 <= k < |s[i + 1..]| && s[i + 1..][k] == x;
      assert s[i + 1 + k] == x;
    }
  }

  lemma PermutationKeepsCompatible(a: seq<Entry>, b: seq<Entry>)
    requires multiset(a) == multiset(b) && Compatible(a)
    ensures Compatible(b)
  {
    assert forall e :: e in b <==> e in multiset(b);
    assert forall e :: e in a <==> e in multiset(a);
    forall i, j | 0 <= i < j < |b| ensures b[i].path != b[j].path {
      assert b[i] in a && b[j] in a;
      if b[i] == b[j] {
        TwoOfOne(b, i, j);
        TwoPlaces(a, b[i]);
      }
    }
  }

  lemma {:induction false} TotalOfRemoved(s: seq<Entry>, i: nat)
    requires i < |s|
    ensures Total(s) == Total(s[..i] + s[i + 1..]) + s[i].size
  {
    if i == |s| - 1 {
      assert s[..i] + s[i + 1..] == s[..i];
    } else {
      var front := s[..|s| - 1];
      TotalOfRemoved(front, i);
      var t := s[..i] + s[i + 1..];
      assert t[..|t| - 1] == front[..i] + front[i + 1..];
      assert t[|t| - 1] == s[|s| - 1];
    }
  }

  function Without<T>(s: seq<T>, i: nat): seq<T>
    requires i < |s|
  {
    s[..i] + s[i + 1..]
  }

  lemma WithoutRemovesOne<T>(s: seq<T>, i: nat)
    requires i < |s|
    ensures multiset(Without(s, i)) == multiset(s) - multiset{s[i]}
  {
    assert s == s[..i] + [s[i]] + s[i + 1..];
  }

  /** The same elements with one removed on each side. */
  lemma MatchLast<T>(a: seq<T>, b: seq<T>) returns (i: nat)
    requires multiset(a) == multiset(b) && b != []
    ensures i < |a| && a[i] == b[|b| - 1] && multiset(Without(a, i)) == multiset(b[..|b| - 1])
  {
    var n := |b| - 1;
    assert Without(b, n) == b[..n];
    assert b[n] in multiset(b);
    assert b[n] in a;
    i :| 0 <= i < |a| && a[i] == b[n];
    WithoutRemovesOne(a, i);
    WithoutRemovesOne(b, n);
  }

  lemma {:induction false} PermutationKeepsTotal(a: seq<Entry>, b: seq<Entry>)
    requires multiset(a) == multiset(b)
    ensures Total(a) == Total(b)
    decreases |b|
  {
    if b == [] {
      assert |multiset(a)| == |a|;
    } else {
      var i := MatchLast(a, b);
      TotalOfRemoved(a, i);
      PermutationKeepsTotal(Without(a, i), b[..|b| - 1]);
    }
  }

  /** Permute `x` the way that turns `a` into `b`. */
  lemma {:induction false} CarryAlong<T, U>(a: seq<T>, x: seq<U>, b: seq<T>) returns (y: seq<U>)
    requires multiset(a) == multiset(b) && |x| == |a|
    ensures |y| == |b| && multiset(y) == multiset(x)
    ensures forall j :: 0 <= j < |b| ==> exists i :: 0 <= i < |a| && a[i] == b[j] && x[i] == y[j]
    decreases |b|
  {
    if b == [] {
      assert |multiset(a)| == |a|;
      y := [];
    } else {
      var n := |b| - 1;
      var k := MatchLast(a, b);
      var rest := CarryAlong(Without(a, k), Without(x, k), b[..n]);
      y := rest + [x[k]];
      WithoutRemovesOne(x, k);
      assert x[k] in multiset(x);
      forall j | 0 <= j < |b| ensures exists i :: 0 <= i < |a| && a[i] == b[j] && x[i] == y[j] {
        if j < n {
          var i :| 0 <= i < |Without(a, k)| && Without(a, k)[i] == b[..n][j] && Without(x, k)[i] == rest[j];
          var i' := if i < k then i else i + 1;
          assert a[i'] == b[j] && x[i'] == y[j];
        } else {
          assert a[k] == b[j] && x[k] == y[j];
        }
      }
    }
  }

  /** The entries of permuted records are permuted entries. */
  lemma PermutedEntries(a: seq<Info>, b: seq<Info>, limits: Limits)
    requires multiset(a) == multiset(b) && AllMade(a, limits)
    ensures AllMade(b, limits) && multiset(EntriesOf(a, limits)) == multiset(EntriesOf(b, limits))
  {
    var y := CarryAlong(a, EntriesOf(a, limits), b);
    forall j | 0 <= j < |b| ensures EntryOf(b[j], limits) == Ok(y[j]) {
      var i :| 0 <= i < |a| && a[i] == b[j] && EntriesOf(a, limits)[i] == y[j];
    }
    assert EntriesOf(b, limits) == y;
  }

  /** The structural verdict does not depend on the order of the records. */
  lemma StructureIgnoresOrder(a: seq<Info>, b: seq<Info>, limits: Limits)
    requires multiset(a) == multiset(b)
    ensures StructureOk(a, limits) <==> StructureOk(b, limits)
  {
    assert |a| == |multiset(a)| && |b| == |multiset(b)|;
    if AllMade(a, limits) {
      PermutedEntries(a, b, limits);
      PermutationKeepsTotal(EntriesOf(a, limits), EntriesOf(b, limits));
      if Compatible(EntriesOf(a, limits)) {
        PermutationKeepsCompatible(EntriesOf(a, limits), EntriesOf(b, limits));
      }
      if Compatible(EntriesOf(b, limits)) {
        PermutationKeepsCompatible(EntriesOf(b, limits), EntriesOf(a, limits));
      }
    } else if AllMade(b, limits) {
      PermutedEntries(b, a, limits);
    }
  }

  // --------------------------------------------------- the checking methods

  /** The ancestor loop: some recorded file lies on the way to `path`. */
  method HasFileAncestor(byPath: map<string, Entry>, path: string) returns (found: bool)
    ensures found <==> exists q :: q in byPath && byPath[q].kind == File && Below(path, q)
  {
    var parts := Split(path);
    for index := 1 to |parts|
      invariant forall k :: 1 <= k < index ==>
        !(Ancestor(path, k) in byPath && byPath[Ancestor(path, k)].kind == File)
    {
      var ancestor := Join(parts[..index]);
      if ancestor in byPath && byPath[ancestor].kind != Directory {
        AncestorIsStringPrefix(path, ancestor);
        assert Ancestor(path, index) == ancestor;
        return true;
      }
    }
    forall q | q in byPath && byPath[q].kind == File ensures !Below(path, q) {
      AncestorIsStringPrefix(path, q);
    }
    return false;
  }

  /** `by_path` holds exactly the entries seen so far. */
  ghost predicate Recorded(byPath: map<string, Entry>, entries: seq<Entry>) {
    && (forall e :: e in entries ==> e.path in byPath && byPath[e.path] == e)
    && (forall q :: q in byPath ==> byPath[q] in entries && byPath[q].path == q)
  }

  /** The three tests both validators make against the entries before this one; then it is recorded. */
  method Admit(byPath: map<string, Entry>, e: Entry, ghost entries: seq<Entry>)
    returns (r: Result<map<string, Entry>, ZipError>)
    requires Recorded(byPath, entries) && Compatible(entries)
    ensures r.Ok? <==> Compatible(entries + [e])
    ensures r.Ok? ==> Recorded(r.value, entries + [e])
    ensures r.Err? ==> r.error == DuplicatePath || r.error == PathConflict
  {
    ghost var more := entries + [e];
    if e.path in byPath {
      ghost var k :| 0 <= k < |entries| && entries[k] == byPath[e.path];
      assert more[k].path == more[|entries|].path;
      return Err(DuplicatePath);
    }
    var nested := HasFileAncestor(byPath, e.path);
    if nested {
      ghost var q :| q in byPath && byPath[q].kind == File && Below(e.path, q);
      assert Conflict(byPath[q], e) && byPath[q] in more && e in more;
      return Err(PathConflict);
    }
    if e.kind != Directory && exists q :: q in byPath && Below(q, e.path) {
      ghost var q :| q in byPath && Below(q, e.path);
      assert Conflict(byPath[q], e) && byPath[q] in more && e in more;
      return Err(PathConflict);
    }
    CompatibleStep(byPath, entries, e);
    RecordedStep(byPath, entries, e);
    return Ok(byPath[e.path := e]);
  }

  lemma CompatibleStep(byPath: map<string, Entry>, entries: seq<Entry>, e: Entry)
    requires Recorded(byPath, entries) && Compatible(entries) && e.path !in byPath
    requires forall q :: q in byPath && byPath[q].kind == File ==> !Below(e.path, q)
    requires e.kind == File ==> forall q :: q in byPath ==> !Below(q, e.path)
    ensures Compatible(entries + [e])
  {
    var more := entries + [e];
    forall a, b | a in more && b in more ensures !Conflict(a, b) {
      if a == e && b == e {
        if Below(e.path, e.path) {
          BelowIsDeeper(e.path, e.path);
        }
      }
    }
  }

  lemma RecordedStep(byPath: map<string, Entry>, entries: seq<Entry>, e: Entry)
    requires Recorded(byPath, entries) && e.path !in byPath
    ensures Recorded(byPath[e.path := e], entries + [e])
  {
  }

  lemma CompatiblePrefix(entries: seq<Entry>, n: nat)
    requires n <= |entries| && Compatible(entries)
    ensures Compatible(entries[..n])
  {
    assert forall e :: e in entries[..n] ==> e in entries;
  }
}
