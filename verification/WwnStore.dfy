/** The WWN records of staged volumes (utils/wwn_helper.go): one file per volume under
    /csi/disks, named after the last 64 characters of the volume id; records written by older
    versions are named after the whole id. */
module WwnStore {
  import opened Basics

  const WWN_DIR := "/csi/disks"
  const WWN_FILE_LENGTH := 64

  /** `buildWwnFilePath`, `buildWwnFileName` and the two paths of a volume. */
  function FilePath(name: string): string { WWN_DIR + "/" + name + ".wwn" }

  function Key(id: string): string {
    if |id| > WWN_FILE_LENGTH then id[|id| - WWN_FILE_LENGTH..] else id
  }

  function ShortPath(id: string): string { FilePath(Key(id)) }

  function LegacyPath(id: string): string { FilePath(id) }

  type Files = map<string, string>

  /** The file that holds a volume's record, as `statWwnFile` finds it. */
  function Holder(files: Files, id: string): Option<string> {
    if ShortPath(id) in files then Some(ShortPath(id))
    else if LegacyPath(id) in files then Some(LegacyPath(id))
    else None
  }

  /** The volume's record. */
  function Record(files: Files, id: string): Option<string> {
    var holder := Holder(files, id);
    if holder.Some? then Some(files[holder.value]) else None
  }

  function Written(files: Files, id: string, wwn: string): Files { files[ShortPath(id) := wwn] }

  function Removed(files: Files, id: string): Files {
    var holder := Holder(files, id);
    if holder.Some? then files - {holder.value} else files
  }

  /** The paths: under "/csi/disks", the last 64 characters of the id, or all of them, and ".wwn". */
  lemma PathMeaning(id: string)
    ensures Key(id) == if |id| <= 64 then id else id[|id| - 64..]
    ensures |Key(id)| <= 64 && exists front :: id == front + Key(id)
    ensures ShortPath(id) == "/csi/disks/" + Key(id) + ".wwn" && LegacyPath(id) == "/csi/disks/" + id + ".wwn"
  {
    assert id == id[..|id| - |Key(id)|] + Key(id);
    assert WWN_DIR + "/" == "/csi/disks/";
  }

  // ----- which paths can meet

  lemma FilePathInjective(a: string, b: string)
    requires FilePath(a) == FilePath(b)
    ensures a == b
  {
    var n := |WWN_DIR| + 1;
    assert |FilePath(a)| == n + |a| + 4 && |FilePath(b)| == n + |b| + 4;
    assert a == FilePath(a)[n..n + |a|] && b == FilePath(b)[n..n + |b|];
  }

  /** Short paths meet only if the keys do, and a legacy path that is not a short path meets
      neither a short path nor another volume's legacy path. */
  lemma PathsMeet(a: string, b: string)
    ensures ShortPath(a) == ShortPath(b) <==> Key(a) == Key(b)
    ensures |a| > WWN_FILE_LENGTH ==> LegacyPath(a) != ShortPath(b)
    ensures |a| <= WWN_FILE_LENGTH ==> LegacyPath(a) == ShortPath(a)
    ensures LegacyPath(a) == LegacyPath(b) <==> a == b
  {
    if ShortPath(a) == ShortPath(b) { FilePathInjective(Key(a), Key(b)); }
    if LegacyPath(a) == ShortPath(b) { FilePathInjective(a, Key(b)); }
    if LegacyPath(a) == LegacyPath(b) { FilePathInjective(a, b); }
  }

  // ----- the store behaves like a map over ids with distinct keys

  /** Two volumes whose ids end in the same 64 characters share one record. */
  lemma SameKeySharesRecord(files: Files, a: string, b: string, wwn: string)
    requires Key(a) == Key(b)
    ensures Record(Written(files, a, wwn), b) == Some(wwn)
  {
    PathsMeet(a, b);
  }

  /** Writing or removing one volume's record leaves the record of every volume with another
      key as it was. */
  lemma OthersUntouched(files: Files, a: string, b: string, wwn: string)
    requires Key(a) != Key(b)
    ensures Record(Written(files, a, wwn), b) == Record(files, b)
    ensures Record(Removed(files, a), b) == Record(files, b)
  {
    PathsMeet(a, b);
    PathsMeet(b, a);
  }

  lemma SameKeyIff(a: string, b: string)
    ensures Key(a) == Key(b) <==> a == b || (|a| >= 64 && |b| >= 64 && a[|a| - 64..] == b[|b| - 64..])
  {
    assert |a| == 64 ==> a[|a| - 64..] == a;
    assert |b| == 64 ==> b[|b| - 64..] == b;
  }

  /** So writing one volume's record leaves another's as it was, whatever is written, if and only if the ids
      differ and do not end in the same 64 characters. */
  lemma WritesMeetIff(files: Files, a: string, b: string)
    ensures (forall wwn :: Record(Written(files, a, wwn), b) == Record(files, b)) <==>
              a != b && !(|a| >= 64 && |b| >= 64 && a[|a| - 64..] == b[|b| - 64..])
  {
    SameKeyIff(a, b);
    if Key(a) == Key(b) {
      SameKeySharesRecord(files, a, b, "1");
      SameKeySharesRecord(files, a, b, "2");
    } else {
      forall wwn ensures Record(Written(files, a, wwn), b) == Record(files, b) {
        OthersUntouched(files, a, b, wwn);
      }
    }
  }

  /** After a removal the record is gone exactly when there was not a short and a legacy file
      both: with both, the removal uncovers the legacy record. */
  lemma RemoveThenRead(files: Files, id: string)
    ensures Record(Removed(files, id), id).None? <==>
              !(|id| > 64 && ShortPath(id) in files && LegacyPath(id) in files)
    ensures Record(Removed(files, id), id).Some? ==>
              Record(Removed(files, id), id) == Some(files[LegacyPath(id)])
  {
    PathsMeet(id, id);
  }

  // ----- any sequence of operations

  datatype Op = Put(id: string, wwn: string) | PutIfAbsent(id: string, wwn: string) | Delete(id: string)

  function OnFiles(files: Files, op: Op): Files {
    match op
    case Put(id, wwn) => Written(files, id, wwn)
    case PutIfAbsent(id, wwn) => if Record(files, id) in {None, Some("")} then Written(files, id, wwn) else files
    case Delete(id) => Removed(files, id)
  }

  function OnMap(m: map<string, string>, op: Op): map<string, string> {
    match op
    case Put(id, wwn) => m[id := wwn]
    case PutIfAbsent(id, wwn) => if id in m && m[id] != "" then m else m[id := wwn]
    case Delete(id) => m - {id}
  }

  function FilesAfter(files: Files, ops: seq<Op>): Files {
    if ops == [] then files else OnFiles(FilesAfter(files, ops[..|ops| - 1]), ops[|ops| - 1])
  }

  function MapAfter(m: map<string, string>, ops: seq<Op>): map<string, string> {
    if ops == [] then m else OnMap(MapAfter(m, ops[..|ops| - 1]), ops[|ops| - 1])
  }

  /** The files hold exactly the map's entries for the given volumes, none of them in a legacy file. */
  ghost predicate Represents(files: Files, m: map<string, string>, ids: set<string>) {
    forall id :: id in ids ==>
      && Record(files, id) == (if id in m then Some(m[id]) else None)
      && (|id| > WWN_FILE_LENGTH ==> LegacyPath(id) !in files)
  }

  lemma OpKeepsRepresents(files: Files, m: map<string, string>, ids: set<string>, op: Op)
    requires Represents(files, m, ids) && op.id in ids
    requires forall a, b :: a in ids && b in ids && a != b ==> Key(a) != Key(b)
    ensures Represents(OnFiles(files, op), OnMap(m, op), ids)
  {
    forall id | id in ids
      ensures Record(OnFiles(files, op), id) == (if id in OnMap(m, op) then Some(OnMap(m, op)[id]) else None)
      ensures |id| > WWN_FILE_LENGTH ==> LegacyPath(id) !in OnFiles(files, op)
    {
      PathsMeet(id, op.id);
      if id != op.id {
        OthersUntouched(files, op.id, id, if op.Delete? then "" else op.wwn);
      } else {
        RemoveThenRead(files, id);
      }
    }
  }

  /** For volumes with distinct keys and no legacy files, the store is a map from volume ids to
      WWNs under any sequence of operations. */
  lemma {:induction false} StoreRefinesMap(files: Files, m: map<string, string>, ids: set<string>, ops: seq<Op>)
    requires Represents(files, m, ids)
    requires forall a, b :: a in ids && b in ids && a != b ==> Key(a) != Key(b)
    requires forall k :: 0 <= k < |ops| ==> ops[k].id in ids
    ensures Represents(FilesAfter(files, ops), MapAfter(m, ops), ids)
  {
    if ops != [] {
      StoreRefinesMap(files, m, ids, ops[..|ops| - 1]);
      OpKeepsRepresents(FilesAfter(files, ops[..|ops| - 1]), MapAfter(m, ops[..|ops| - 1]), ids, ops[|ops| - 1]);
    }
  }

  // ----- the operations, with the errors the file system may raise

  /** Which system calls work: `stat` and reading by path, writing, removing; and what a write
      that fails half-way leaves in the file. */
  datatype Io = Io(statOk: string -> bool, readOk: string -> bool, writeOk: bool, leftover: Option<string>, removeOk: bool)

  /** The record can be looked up: no `stat` that is needed fails, and the file found reads. */
  predicate CanStat(files: Files, id: string, io: Io) {
    io.statOk(ShortPath(id)) && (ShortPath(id) in files || io.statOk(LegacyPath(id)))
  }

  predicate CanRead(files: Files, id: string, io: Io) {
    CanStat(files, id, io) && (Holder(files, id).Some? ==> io.readOk(Holder(files, id).value))
  }

  class Store {
    var files: Files

    constructor (files: Files)
      ensures this.files == files
    {
      this.files := files;
    }

    /** `statWwnFile`; `Ok(None)` is its "not found" error. */
    method Stat(id: string, io: Io) returns (r: Result<Option<string>>)
      ensures r == if CanStat(files, id, io) then Ok(Holder(files, id)) else Err
    {
      var paths := [ShortPath(id), LegacyPath(id)];
      var k := 0;
      while k < 2
        invariant 0 <= k <= 2
        invariant forall j :: 0 <= j < k ==> paths[j] !in files && io.statOk(paths[j])
      {
        if !io.statOk(paths[k]) {
          assert paths[0] == ShortPath(id) && paths[1] == LegacyPath(id);
          return Err;
        }
        if paths[k] in files {
          assert paths[0] == ShortPath(id) && paths[1] == LegacyPath(id);
          return Ok(Some(paths[k]));
        }
        k := k + 1;
      }
      assert paths[0] !in files && paths[1] !in files;
      r := Ok(None);
    }

    /** `ReadWwnFile`: an error also when there is no record. */
    method Read(id: string, io: Io) returns (r: Result<string>)
      ensures r.Ok? <==> CanRead(files, id, io) && Record(files, id).Some?
      ensures r.Ok? ==> Some(r.value) == Record(files, id)
    {
      var path := Stat(id, io);
      if path.Err? || path.value.None? || !io.readOk(path.value.value) {
        return Err;
      }
      r := Ok(files[path.value.value]);
    }

    /** `WriteWWNFile`. */
    method Write(wwn: string, id: string, io: Io) returns (ok: bool)
      modifies this
      ensures ok == io.writeOk
      ensures ok ==> files == Written(old(files), id, wwn) && Record(files, id) == Some(wwn)
      ensures !ok ==> files == if io.leftover.Some? then Written(old(files), id, io.leftover.value) else old(files)
    {
      if !io.writeOk {
        if io.leftover.Some? {
          files := files[ShortPath(id) := io.leftover.value];
        }
        return false;
      }
      SameKeySharesRecord(files, id, id, wwn);
      files := files[ShortPath(id) := wwn];
      ok := true;
    }

    /** `WriteWWNFileIfNotExist`: writes when there is no record or it is empty, but also when
        it cannot be read. A record that is not empty is therefore kept exactly if it can be
        read. */
    method WriteIfNotExist(wwn: string, id: string, io: Io) returns (ok: bool)
      modifies this
      ensures var keeps := CanRead(old(files), id, io) && Record(old(files), id).Some? && Record(old(files), id).value != "";
              && (keeps ==> ok && files == old(files))
              && (!keeps ==>
                    && ok == io.writeOk
                    && files == if ok then Written(old(files), id, wwn)
                                else if io.leftover.Some? then Written(old(files), id, io.leftover.value) else old(files))
      ensures ok && Record(old(files), id).Some? && Record(old(files), id).value !in {"", wwn} ==>
                (Record(files, id) == Record(old(files), id) <==> CanRead(old(files), id, io))
    {
      var current := Read(id, io);
      if current.Err? || current.value == "" {
        ok := Write(wwn, id, io);
      } else {
        ok := true;
      }
    }

    /** `RemoveWwnFile`. */
    method Remove(id: string, io: Io) returns (ok: bool)
      modifies this
      ensures ok <==> CanStat(old(files), id, io) && (Holder(old(files), id).Some? ==> io.removeOk)
      ensures files == if ok then Removed(old(files), id) else old(files)
    {
      var path := Stat(id, io);
      if path.Err? {
        return false;
      }
      if path.value.None? {
        return true;
      }
      if !io.removeOk {
        return false;
      }
      files := files - {path.value.value};
      ok := true;
    }
  }
}
