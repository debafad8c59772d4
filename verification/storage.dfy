/** The storage manager's ownership registry: two independent maps, one for
    data files and one for configuration files, from a sanitised path to the
    file registered there and the object owning it. Loading, saving and
    releasing the files themselves is left to the file objects and is not
    part of this model. */
module Storage {
  import opened Base
  import opened Text

  // ---------------------------------------------------------------------
  // Path sanitisation
  // ---------------------------------------------------------------------

  /** `".." in path`. */
  predicate HasDotDot(p: string) {
    exists i :: 0 <= i < |p| - 1 && p[i] == '.' && p[i + 1] == '.'
  }

  /** `path.replace("..", ".")`: one left-to-right pass replacing each
      non-overlapping `..` by `.`. */
  function Sanitise(p: string): (r: string)
    ensures |r| <= |p|
    decreases |p|
  {
    if |p| < 2 then p
    else if p[..2] == ".." then "." + Sanitise(p[2..])
    else [p[0]] + Sanitise(p[1..])
  }

  /** The sanitised path, as `get_file` and `release_file` compute it. */
  function CleanPath(path: string): string {
    if HasDotDot(path) then Sanitise(path) else path
  }

  /** The pass is Python's `replace`: split at every `..`, join with `.`. */
  lemma {:induction false} SanitiseIsReplace(p: string)
    ensures Sanitise(p) == Join(".", SplitOn(p, ".."))
    decreases |p|
  {
    if |p| < 2 {
    } else if p[..2] == ".." {
      SanitiseIsReplace(p[2..]);
      var rest := SplitOn(p[2..], "..");
      assert SplitOn(p, "..") == [[]] + rest;
      assert ([[]] + rest)[1..] == rest;
    } else {
      SanitiseIsReplace(p[1..]);
      JoinPrepend([p[0]], ".", SplitOn(p[1..], ".."));
    }
  }

  /** The pass shortens a path exactly when the path holds `..`, so the
      guard in front of it changes nothing. */
  lemma {:induction false} SanitiseShortens(p: string)
    ensures |Sanitise(p)| < |p| <==> HasDotDot(p)
    decreases |p|
  {
    if |p| < 2 {
      assert !HasDotDot(p);
    } else if p[..2] == ".." {
      assert p[0] == '.' && p[1] == '.';
    } else {
      SanitiseShortens(p[1..]);
      if HasDotDot(p) {
        var i :| 0 <= i < |p| - 1 && p[i] == '.' && p[i + 1] == '.';
        assert i != 0 by { assert p[..2] == [p[0], p[1]]; }
        assert p[1..][i - 1] == '.' && p[1..][i] == '.';
      }
      if HasDotDot(p[1..]) {
        var i :| 0 <= i < |p[1..]| - 1 && p[1..][i] == '.' && p[1..][i + 1] == '.';
        assert p[i + 1] == '.' && p[i + 2] == '.';
      }
    }
  }

  /** A path without `..` passes unchanged, so `CleanPath` is the pass
      itself. */
  lemma CleanIsSanitise(p: string)
    ensures CleanPath(p) == Sanitise(p)
  {
    if !HasDotDot(p) {
      SanitiseShortens(p);
      SanitiseKeeps(p);
    }
  }

  lemma {:induction false} SanitiseKeeps(p: string)
    requires |Sanitise(p)| == |p|
    ensures Sanitise(p) == p
    decreases |p|
  {
    if |p| >= 2 && p[..2] != ".." {
      SanitiseKeeps(p[1..]);
    }
  }

  /** A single pass does not remove every `..`: three dots become two. */
  lemma ThreeDotsKeepTwo()
    ensures CleanPath("...") == ".." && HasDotDot(CleanPath("..."))
  {
    assert "..."[..2] == "..";
    assert "..."[2..] == ".";
    assert HasDotDot("...") by { assert "..."[0] == '.' && "..."[1] == '.'; }
    assert HasDotDot("..") by { assert ".."[0] == '.' && ".."[1] == '.'; }
  }

  // ---------------------------------------------------------------------
  // The registry
  // ---------------------------------------------------------------------

  /** The identity of the object a file is registered to. */
  type Owner = nat

  /** A registered file: who owns it and the format it was opened with;
      what `get()` hands back stands for the file's contents. */
  datatype Entry = Entry(owner: Owner, format: string)

  datatype Kind = Data | Config

  datatype Registry = Registry(data: map<string, Entry>, config: map<string, Entry>)

  const Empty := Registry(map[], map[])

  datatype Error = OtherOwnership | UnknownStorageType

  /** The storage type names the manager knows. */
  function KindOf(storageType: string): (r: Option<Kind>)
    ensures r == Some(Data) <==> storageType == "data"
    ensures r == Some(Config) <==> storageType == "config"
    ensures r.None? <==> storageType != "data" && storageType != "config"
  {
    if storageType == "data" then Some(Data)
    else if storageType == "config" then Some(Config)
    else None
  }

  function Files(reg: Registry, k: Kind): map<string, Entry> {
    match k
    case Data => reg.data
    case Config => reg.config
  }

  /** Replace the map of one kind; the other kind's map is kept. */
  function WithFiles(reg: Registry, k: Kind, m: map<string, Entry>): (r: Registry)
    ensures Files(r, k) == m
    ensures forall k' :: k' != k ==> Files(r, k') == Files(reg, k')
  {
    match k
    case Data => reg.(data := m)
    case Config => reg.(config := m)
  }

  /** `get_file`: an entry another object owns is refused; an entry the
      caller owns is handed back as it is (a differing format is ignored);
      an unregistered path is registered to the caller. Either way the
      caller ends up owning the entry under the sanitised path, and no other
      path and no other storage type changes. */
  function GetFile(reg: Registry, obj: Owner, storageType: string, format: string, path: string): (r: Result<(Registry, Entry), Error>)
    ensures KindOf(storageType).None? ==> r == Err(UnknownStorageType)
    ensures KindOf(storageType).Some? ==>
      var k := KindOf(storageType).value;
      var files := Files(reg, k);
      var p := CleanPath(path);
      && (r.Err? <==> p in files && files[p].owner != obj)
      && (r.Err? ==> r.error == OtherOwnership)
      && (r.Ok? ==>
            var (reg1, e) := r.value;
            && e.owner == obj
            && Files(reg1, k) == files[p := e]
            && (forall k' :: k' != k ==> Files(reg1, k') == Files(reg, k'))
            && (p in files ==> e == files[p])
            && (p !in files ==> e.format == format))
  {
    match KindOf(storageType)
    case None => Err(UnknownStorageType)
    case Some(k) =>
      var files := Files(reg, k);
      var p := CleanPath(path);
      if p in files then
        if files[p].owner != obj then Err(OtherOwnership) else Ok((reg, files[p]))
      else
        var e := Entry(obj, format);
        Ok((WithFiles(reg, k, files[p := e]), e))
  }

  /** `release_file`: the owner's release removes the entry and reports
      True; an unregistered path reports False. Another owner's entry is
      refused. No other path and no other storage type changes. */
  function ReleaseFile(reg: Registry, obj: Owner, storageType: string, path: string): (r: Result<(Registry, bool), Error>)
    ensures KindOf(storageType).None? ==> r == Err(UnknownStorageType)
    ensures KindOf(storageType).Some? ==>
      var k := KindOf(storageType).value;
      var files := Files(reg, k);
      var p := CleanPath(path);
      && (r.Err? <==> p in files && files[p].owner != obj)
      && (r.Err? ==> r.error == OtherOwnership)
      && (r.Ok? ==>
            var (reg1, removed) := r.value;
            && (removed <==> p in files)
            && Files(reg1, k) == files - {p}
            && forall k' :: k' != k ==> Files(reg1, k') == Files(reg, k'))
  {
    match KindOf(storageType)
    case None => Err(UnknownStorageType)
    case Some(k) =>
      var files := Files(reg, k);
      var p := CleanPath(path);
      if p in files then
        if files[p].owner != obj then Err(OtherOwnership) else Ok((WithFiles(reg, k, files - {p}), true))
      else Ok((reg, false))
  }

  /** Every registered entry is owned by whoever registered it first, and
      no operation ever moves ownership: an entry present before and after
      has the same owner. */
  lemma OwnershipStable(reg: Registry, obj: Owner, storageType: string, format: string, path: string, k: Kind, q: string)
    requires q in Files(reg, k)
    ensures var g := GetFile(reg, obj, storageType, format, path);
      g.Ok? ==> q in Files(g.value.0, k) && Files(g.value.0, k)[q] == Files(reg, k)[q]
    ensures var rel := ReleaseFile(reg, obj, storageType, path);
      rel.Ok? && q in Files(rel.value.0, k) ==> Files(rel.value.0, k)[q] == Files(reg, k)[q]
  {
  }

  /** Asking again for a file one already holds registers nothing new and
      hands back the same entry. */
  lemma GetTwice(reg: Registry, obj: Owner, storageType: string, f1: string, f2: string, path: string)
    requires GetFile(reg, obj, storageType, f1, path).Ok?
    ensures var (reg1, e1) := GetFile(reg, obj, storageType, f1, path).value;
      GetFile(reg1, obj, storageType, f2, path) == Ok((reg1, e1))
  {
  }

  /** Registering a fresh path and releasing it again restores the
      registry, and the release reports True. */
  lemma GetThenRelease(reg: Registry, obj: Owner, storageType: string, format: string, path: string)
    requires KindOf(storageType).Some? && CleanPath(path) !in Files(reg, KindOf(storageType).value)
    ensures var reg1 := GetFile(reg, obj, storageType, format, path).value.0;
      ReleaseFile(reg1, obj, storageType, path) == Ok((reg, true))
  {
    var k := KindOf(storageType).value;
    var files := Files(reg, k);
    var p := CleanPath(path);
    assert files[p := Entry(obj, format)] - {p} == files;
    var reg1 := GetFile(reg, obj, storageType, format, path).value.0;
    assert WithFiles(reg1, k, files) == reg by {
      match k
      case Data =>
      case Config =>
    }
  }

  /** Operations on one storage type never touch the other's registry. */
  lemma KindsIndependent(reg: Registry, obj: Owner, storageType: string, format: string, path: string, other: Kind)
    requires KindOf(storageType).Some? && KindOf(storageType).value != other
    ensures var g := GetFile(reg, obj, storageType, format, path);
      g.Ok? ==> Files(g.value.0, other) == Files(reg, other)
    ensures var rel := ReleaseFile(reg, obj, storageType, path);
      rel.Ok? ==> Files(rel.value.0, other) == Files(reg, other)
  {
  }

  /** Paths that sanitise alike name the same entry: `a..b` and `a.b` are
      one file for ownership purposes. */
  lemma AliasesCollide(reg: Registry, obj: Owner, other: Owner, storageType: string, format: string, p1: string, p2: string)
    requires GetFile(reg, obj, storageType, format, p1).Ok?
    requires CleanPath(p1) !in Files(reg, KindOf(storageType).value)
    requires CleanPath(p2) == CleanPath(p1) && other != obj
    ensures GetFile(GetFile(reg, obj, storageType, format, p1).value.0, other, storageType, format, p2) == Err(OtherOwnership)
  {
  }
}
