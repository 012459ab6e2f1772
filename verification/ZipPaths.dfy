/**
 Names of ZIP members (`normalize_zip_member_path`): splitting and joining at
 slashes, strict normalization, and when normalizing twice is the same as once.
*/
module ZipPaths {
  import opened Wrappers

  // --------------------------------------------------------- split and join

  function Split(s: string): (parts: seq<string>)
    ensures |parts| >= 1
  {
    if s == "" then [""]
    else
      var rest := Split(s[1..]);
      if s[0] == '/' then [""] + rest else [[s[0]] + rest[0]] + rest[1..]
  }

  function Join(parts: seq<string>): string {
    if parts == [] then ""
    else if |parts| == 1 then parts[0]
    else parts[0] + "/" + Join(parts[1..])
  }

  lemma {:induction false} JoinSplit(s: string)
    ensures Join(Split(s)) == s
  {
    if s != "" {
      var rest := Split(s[1..]);
      JoinSplit(s[1..]);
      if s[0] == '/' {
        assert ([""] + rest)[1..] == rest;
        assert Join(Split(s)) == "" + "/" + s[1..];
      } else {
        var parts := [[s[0]] + rest[0]] + rest[1..];
        assert parts[1..] == rest[1..];
        if |rest| > 1 {
          assert Join(parts) == [s[0]] + rest[0] + "/" + Join(rest[1..]);
          assert Join(parts) == [s[0]] + (rest[0] + "/" + Join(rest[1..]));
        }
        assert Join(parts) == [s[0]] + s[1..];
      }
    }
  }

  /** Splitting distributes over a slash, whatever is on its sides. */
  lemma {:induction false} SplitAtSlash(a: string, b: string)
    ensures Split(a + "/" + b) == Split(a) + Split(b)
  {
    var s := a + "/" + b;
    if a == "" {
      assert s[0] == '/' && s[1..] == b;
    } else {
      assert s[0] == a[0] && s[1..] == a[1..] + "/" + b;
      SplitAtSlash(a[1..], b);
    }
  }

  lemma {:induction false} JoinAppend(x: seq<string>, y: seq<string>)
    requires x != [] && y != []
    ensures Join(x + y) == Join(x) + "/" + Join(y)
  {
    if |x| == 1 {
      assert (x + y)[1..] == y;
    } else {
      assert (x + y)[1..] == x[1..] + y;
      JoinAppend(x[1..], y);
      assert Join(x + y) == x[0] + "/" + (Join(x[1..]) + "/" + Join(y));
    }
  }

  predicate NoSlash(part: string) {
    forall i :: 0 <= i < |part| ==> part[i] != '/'
  }

  lemma {:induction false} SplitOne(part: string)
    requires NoSlash(part)
    ensures Split(part) == [part]
  {
    if part != "" {
      SplitOne(part[1..]);
      assert [part[0]] + part[1..] == part;
    }
  }

  lemma {:induction false} SplitHasNoSlash(s: string)
    ensures forall k :: 0 <= k < |Split(s)| ==> NoSlash(Split(s)[k])
  {
    if s != "" {
      SplitHasNoSlash(s[1..]);
    }
  }

  lemma {:induction false} SplitJoin(parts: seq<string>)
    requires parts != [] && forall k :: 0 <= k < |parts| ==> NoSlash(parts[k])
    ensures Split(Join(parts)) == parts
  {
    SplitOne(parts[0]);
    if |parts| > 1 {
      SplitJoin(parts[1..]);
      SplitAtSlash(parts[0], Join(parts[1..]));
      assert [parts[0]] + parts[1..] == parts;
    } else {
      assert parts == [parts[0]];
    }
  }

  // ---------------------------------------------------------- ancestor paths

  /** `path.startswith(ancestor + "/")`. */
  predicate Below(path: string, ancestor: string) {
    ancestor + "/" <= path
  }

  /** `"/".join(path.split("/")[:k])`. */
  function Ancestor(path: string, k: nat): string
    requires k <= |Split(path)|
  {
    Join(Split(path)[..k])
  }

  /** A string prefix ending at a slash is exactly a proper prefix of the components. */
  lemma AncestorIsStringPrefix(path: string, q: string)
    ensures Below(path, q) <==> exists k :: 1 <= k < |Split(path)| && Ancestor(path, k) == q
  {
    if Below(path, q) {
      var b := path[|q| + 1..];
      assert path == q + "/" + b;
      SplitAtSlash(q, b);
      JoinSplit(q);
      assert Split(path)[..|Split(q)|] == Split(q);
      assert Ancestor(path, |Split(q)|) == q;
    }
    if k :| 1 <= k < |Split(path)| && Ancestor(path, k) == q {
      var parts := Split(path);
      JoinAppend(parts[..k], parts[k..]);
      assert parts[..k] + parts[k..] == parts;
      JoinSplit(path);
      assert path == q + "/" + Join(parts[k..]);
    }
  }

  function Depth(path: string): nat {
    |Split(path)|
  }

  /** An ancestor has fewer components. */
  lemma BelowIsDeeper(path: string, q: string)
    requires Below(path, q)
    ensures Depth(q) < Depth(path)
  {
    var b := path[|q| + 1..];
    assert path == q + "/" + b;
    SplitAtSlash(q, b);
  }

  lemma BelowIsTransitive(a: string, b: string, c: string)
    requires Below(a, b) && Below(b, c)
    ensures Below(a, c)
  {
  }

  function CountSlashes(s: string): nat {
    if s == "" then 0 else (if s[0] == '/' then 1 else 0) + CountSlashes(s[1..])
  }

  /** `path.count("/")` is the number of components less one. */
  lemma {:induction false} SlashesAreDepth(s: string)
    ensures CountSlashes(s) + 1 == Depth(s)
  {
    if s != "" {
      SlashesAreDepth(s[1..]);
    }
  }

  // ------------------------------------------------------------ normalization

  datatype PathError = EmptyPath | ControlCharacter | Backslash | AbsolutePath | Traversal | Metadata

  /** Unicode category Cc. */
  predicate IsControl(c: char) {
    var n := c as int;
    n < 0x20 || 0x7f <= n <= 0x9f
  }

  predicate IsLetter(c: char) {
    'a' <= c <= 'z' || 'A' <= c <= 'Z'
  }

  predicate HasDrive(s: string) {
    |s| >= 2 && IsLetter(s[0]) && s[1] == ':'
  }

  predicate Skipped(part: string) {
    part == "" || part == "."
  }

  /** The components kept by the loop; a parent reference has been ruled out before. */
  function Kept(parts: seq<string>): seq<string> {
    if parts == [] then []
    else if Skipped(parts[0]) then Kept(parts[1..])
    else [parts[0]] + Kept(parts[1..])
  }

  predicate HasControl(s: string) {
    exists i :: 0 <= i < |s| && IsControl(s[i])
  }

  function Normalize(raw: string): Result<string, PathError> {
    if raw == "" then Err(EmptyPath)
    else if HasControl(raw) then Err(ControlCharacter)
    else if '\\' in raw then Err(Backslash)
    else if raw[0] == '/' || HasDrive(raw) then Err(AbsolutePath)
    else if ".." in Split(raw) then Err(Traversal)
    else
      var parts := Kept(Split(raw));
      if parts == [] then Err(EmptyPath)
      else if ".termroom" in parts then Err(Metadata)
      else Ok(Join(parts))
  }

  /** `normalize_zip_member_path` with its component loop. */
  method NormalizeZipMemberPath(raw: string) returns (r: Result<string, PathError>)
    ensures r == Normalize(raw)
  {
    if raw == "" {
      return Err(EmptyPath);
    }
    if HasControl(raw) {
      return Err(ControlCharacter);
    }
    if '\\' in raw {
      return Err(Backslash);
    }
    if raw[0] == '/' || HasDrive(raw) {
      return Err(AbsolutePath);
    }
    var parts: seq<string> := [];
    var split := Split(raw);
    for i := 0 to |split|
      invariant parts == Kept(split[..i])
      invariant ".." !in split[..i]
    {
      assert split[..i + 1] == split[..i] + [split[i]];
      KeptAppend(split[..i], split[i]);
      if Skipped(split[i]) {
        continue;
      }
      if split[i] == ".." {
        return Err(Traversal);
      }
      parts := parts + [split[i]];
    }
    assert split[..|split|] == split;
    if parts == [] {
      return Err(EmptyPath);
    }
    if ".termroom" in parts {
      return Err(Metadata);
    }
    return Ok(Join(parts));
  }

  lemma {:induction false} KeptAppend(parts: seq<string>, part: string)
    ensures Kept(parts + [part]) == Kept(parts) + if Skipped(part) then [] else [part]
  {
    if parts == [] {
      assert ([] + [part])[1..] == [];
    } else {
      assert (parts + [part])[1..] == parts[1..] + [part];
      KeptAppend(parts[1..], part);
    }
  }

  lemma {:induction false} KeptIsClean(parts: seq<string>)
    ensures forall k :: 0 <= k < |Kept(parts)| ==> Kept(parts)[k] in parts && !Skipped(Kept(parts)[k])
    ensures Kept(Kept(parts)) == Kept(parts)
  {
    if parts != [] {
      KeptIsClean(parts[1..]);
      if !Skipped(parts[0]) {
        assert Kept(parts)[1..] == Kept(parts[1..]);
      }
    }
  }

  /** No character appears in a part that was not in the string. */
  lemma {:induction false} PartsComeFrom(s: string, k: nat, i: nat)
    requires k < |Split(s)| && i < |Split(s)[k]|
    ensures Split(s)[k][i] in s
  {
    if s != "" {
      var rest := Split(s[1..]);
      if s[0] == '/' {
        PartsComeFrom(s[1..], k - 1, i);
      } else if k > 0 {
        PartsComeFrom(s[1..], k, i);
      } else if i > 0 {
        PartsComeFrom(s[1..], 0, i - 1);
      }
    }
  }

  lemma {:induction false} JoinComesFrom(parts: seq<string>, i: nat)
    requires i < |Join(parts)|
    ensures Join(parts)[i] == '/' || exists k :: 0 <= k < |parts| && Join(parts)[i] in parts[k]
  {
    if |parts| > 1 && i > |parts[0]| {
      JoinComesFrom(parts[1..], i - |parts[0]| - 1);
      if Join(parts)[i] != '/' {
        var k :| 0 <= k < |parts[1..]| && Join(parts[1..])[i - |parts[0]| - 1] in parts[1..][k];
        assert parts[k + 1] == parts[1..][k];
      }
    }
  }

  /** What a successful normalization yields: clean components joined by single slashes. */
  lemma NormalizedShape(raw: string, p: string)
    requires Normalize(raw) == Ok(p)
    ensures var parts := Split(p);
            && p == Join(parts) && Kept(parts) == parts
            && ".." !in parts && ".termroom" !in parts
            && p != "" && p[0] != '/' && !HasControl(p) && '\\' !in p
  {
    var parts := Kept(Split(raw));
    SplitHasNoSlash(raw);
    KeptIsClean(Split(raw));
    forall k | 0 <= k < |parts| ensures NoSlash(parts[k]) {
      assert parts[k] in Split(raw);
    }
    SplitJoin(parts);
    assert parts[0] != "" && parts[0][0] != '/';
    assert p[0] == parts[0][0];
    forall i | 0 <= i < |p| ensures !IsControl(p[i]) && p[i] != '\\' {
      NormalizedCharacters(raw, p, i);
    }
  }

  lemma NormalizedCharacters(raw: string, p: string, i: nat)
    requires Normalize(raw) == Ok(p) && i < |p|
    ensures !IsControl(p[i]) && p[i] != '\\'
  {
    var parts := Kept(Split(raw));
    JoinComesFrom(parts, i);
    if p[i] != '/' {
      var k :| 0 <= k < |parts| && p[i] in parts[k];
      KeptIsClean(Split(raw));
      assert parts[k] in Split(raw);
      var j :| 0 <= j < |Split(raw)| && Split(raw)[j] == parts[k];
      var c :| 0 <= c < |parts[k]| && parts[k][c] == p[i];
      PartsComeFrom(raw, j, c);
      assert p[i] in raw;
    }
  }

  /** The characters a name may have, and how it may not begin. */
  predicate IsPlain(raw: string) {
    && raw != "" && raw[0] != '/' && '\\' !in raw
    && (forall i :: 0 <= i < |raw| ==> 0x20 <= raw[i] as int < 0x7f || 0xa0 <= raw[i] as int)
    && !(|raw| >= 2 && raw[1] == ':' && ('a' <= raw[0] <= 'z' || 'A' <= raw[0] <= 'Z'))
  }

  lemma PlainIff(raw: string)
    ensures IsPlain(raw) <==> raw != "" && !HasControl(raw) && '\\' !in raw && raw[0] != '/' && !HasDrive(raw)
  {
    if HasControl(raw) {
      var i :| 0 <= i < |raw| && IsControl(raw[i]);
      assert !(0x20 <= raw[i] as int < 0x7f || 0xa0 <= raw[i] as int);
    } else {
      forall i | 0 <= i < |raw| ensures 0x20 <= raw[i] as int < 0x7f || 0xa0 <= raw[i] as int {
        assert !IsControl(raw[i]);
      }
    }
  }

  lemma KeptEmptyIff(parts: seq<string>)
    ensures Kept(parts) != [] <==> exists part :: part in parts && part != "" && part != "."
    ensures ".termroom" in Kept(parts) <==> ".termroom" in parts
  {
    KeptHasAll(parts);
    KeptIsClean(parts);
    if Kept(parts) != [] {
      assert Kept(parts)[0] in parts;
    }
  }

  /** Exactly the names that are accepted. */
  lemma NormalizeAcceptsIff(raw: string)
    ensures Normalize(raw).Ok? <==>
      && IsPlain(raw) && ".." !in Split(raw) && ".termroom" !in Split(raw)
      && exists part :: part in Split(raw) && part != "" && part != "."
  {
    PlainIff(raw);
    KeptEmptyIff(Split(raw));
  }

  lemma {:induction false} KeptHasAll(parts: seq<string>)
    ensures forall part :: part in parts && part != "" && part != "." ==> part in Kept(parts)
  {
    if parts != [] {
      KeptHasAll(parts[1..]);
      assert forall part :: part in parts ==> part == parts[0] || part in parts[1..];
    }
  }

  /** The kept components are, in their order, those that are neither empty nor a dot. */
  lemma {:induction false} KeptPlaces(parts: seq<string>) returns (from: seq<nat>)
    ensures |from| == |Kept(parts)|
    ensures forall k :: 0 <= k < |from| ==> from[k] < |parts| && parts[from[k]] == Kept(parts)[k]
    ensures forall j, k :: 0 <= j < k < |from| ==> from[j] < from[k]
    ensures forall i :: 0 <= i < |parts| ==> (i in from <==> parts[i] != "" && parts[i] != ".")
  {
    if parts == [] {
      from := [];
    } else {
      var last := |parts| - 1;
      assert parts == parts[..last] + [parts[last]];
      KeptAppend(parts[..last], parts[last]);
      from := KeptPlaces(parts[..last]);
      assert forall i :: 0 <= i < last ==> parts[..last][i] == parts[i];
      if !Skipped(parts[last]) {
        from := from + [last];
      }
    }
  }

  /**
   Normalizing an accepted path again returns it unchanged, except exactly when
   it starts with a letter and a colon: then the second call rejects it.
  */
  lemma NormalizingTwice(raw: string, p: string)
    requires Normalize(raw) == Ok(p)
    ensures Normalize(p) == if HasDrive(p) then Err(AbsolutePath) else Ok(p)
  {
    NormalizedShape(raw, p);
  }

  /** The exception is real: `./C:x` is accepted as `C:x`, which is not accepted. */
  lemma DriveSurvivesNormalization()
    ensures Normalize("./C:x") == Ok("C:x") && Normalize("C:x") == Err(AbsolutePath)
  {
    SplitOne(".");
    SplitOne("C:x");
    SplitAtSlash(".", "C:x");
    assert "." + "/" + "C:x" == "./C:x";
    assert Split("./C:x") == [".", "C:x"];
    assert [".", "C:x"][1..] == ["C:x"] && ["C:x"][1..] == [];
    assert Kept(["C:x"]) == ["C:x"];
    assert Kept([".", "C:x"]) == ["C:x"];
    assert !HasControl("./C:x");
  }
}
