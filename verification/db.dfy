/** The decision logic of the database layer: the collection path walk over the
    self-referential collection table, the `attachments:` path rewrite, the filter over stored
    attachment paths, and the search for the main database file. A connection is modelled by the
    results its queries return. */
module Db {
  import opened Wrappers
  import opened Seqs
  import opened Text

  // ---------------------------------------------------------------------------------------------
  // Collections

  /** A row of the collections table; `parentId` is `None` for SQL NULL. */
  datatype Collection = Collection(id: int, name: string, parentId: Option<int>)

  /** The lookup index `{c.id: c for c in all_colls}`: exactly the ids present, each mapped to a
      collection with that id. */
  function ById(all: seq<Collection>): (m: map<int, Collection>)
    ensures forall i | 0 <= i < |all| :: all[i].id in m
    ensures forall k | k in m :: m[k] in all && m[k].id == k
  {
    if all == [] then map[]
    else
      var last := all[|all| - 1];
      ById(all[..|all| - 1])[last.id := last]
  }

  /** On duplicate ids the entry that comes last wins. */
  lemma {:induction false} ByIdLastWins(all: seq<Collection>, i: nat)
    requires i < |all|
    requires forall j | i < j < |all| :: all[j].id != all[i].id
    ensures ById(all)[all[i].id] == all[i]
    decreases |all|
  {
    if i < |all| - 1 {
      var init := all[..|all| - 1];
      assert init[i] == all[i];
      ByIdLastWins(init, i);
    }
  }

  /** One step of the walk: `by_id.get(c.parent_id) if c.parent_id else None`. A parent id of
      `None` or `0` is falsy and ends the walk; so does an id missing from the index. */
  function ParentOf(c: Collection, byId: map<int, Collection>): Option<Collection>
  {
    if c.parentId.Some? && c.parentId.value != 0 then Get(byId, c.parentId.value) else None
  }

  /** The walk's `current` after `n` steps from `c` (`None` once the walk has stopped). */
  ghost function Ancestor(c: Collection, byId: map<int, Collection>, n: nat): Option<Collection>
  {
    if n == 0 then Some(c)
    else
      match Ancestor(c, byId, n - 1)
      case None => None
      case Some(a) => ParentOf(a, byId)
  }

  /** The walk's `parts` after `n` steps: the names met so far, the start's own name first. */
  ghost function Lineage(c: Collection, byId: map<int, Collection>, n: nat): seq<string>
  {
    if n == 0 then []
    else
      Lineage(c, byId, n - 1) +
        match Ancestor(c, byId, n - 1)
        case None => []
        case Some(a) => [a.name]
  }

  /** The walk from `c` stops after finitely many steps: the parent links above `c` are acyclic.
      Without this the walk never ends. */
  ghost predicate ReachesRoot(c: Collection, byId: map<int, Collection>) {
    exists n: nat :: Ancestor(c, byId, n).None?
  }

  /** The path made of the names met in the first `n` steps of the walk, root first. */
  ghost function PathAfter(c: Collection, byId: map<int, Collection>, n: nat): string {
    "/" + Join("/", Reverse(Lineage(c, byId, n)))
  }

  /** A number of steps after which the walk from `c` has stopped. */
  ghost function StopStep(c: Collection, byId: map<int, Collection>): (n: nat)
    requires ReachesRoot(c, byId)
    ensures Ancestor(c, byId, n).None?
  {
    var n: nat :| Ancestor(c, byId, n).None?; n
  }

  /** What `build_collection_path` returns: "/" and the names of the whole walk, root first. */
  ghost function CollectionPath(c: Collection, all: seq<Collection>): string
    requires ReachesRoot(c, ById(all))
  {
    PathAfter(c, ById(all), StopStep(c, ById(all)))
  }

  /** `build_collection_path`. */
  method BuildCollectionPath(coll: Collection, all: seq<Collection>) returns (path: string)
    requires ReachesRoot(coll, ById(all))
    ensures path == CollectionPath(coll, all)
  {
    var byId := ById(all);
    var parts: seq<string> := [];
    var current: Option<Collection> := Some(coll);
    ghost var steps: nat := 0;
    ghost var bound: nat :| Ancestor(coll, byId, bound).None?;
    while current.Some?
      invariant current == Ancestor(coll, byId, steps)
      invariant parts == Lineage(coll, byId, steps)
      invariant steps <= bound
      decreases bound - steps
    {
      assert Ancestor(coll, byId, steps + 1) == ParentOf(current.value, byId);
      assert Lineage(coll, byId, steps + 1) == parts + [current.value.name];
      parts := parts + [current.value.name];
      var pid := current.value.parentId;
      current := if pid.Some? && pid.value != 0 then Get(byId, pid.value) else None;
      steps := steps + 1;
    }
    path := "/" + Join("/", Reverse(parts));
    PathFromAnyBound(coll, all, steps);
  }

  /** Once the walk has stopped it stays stopped. */
  lemma {:induction false} AncestorStaysNone(c: Collection, byId: map<int, Collection>, n: nat, m: nat)
    requires n <= m && Ancestor(c, byId, n).None?
    ensures Ancestor(c, byId, m).None?
    decreases m
  {
    if n < m {
      AncestorStaysNone(c, byId, n, m - 1);
    }
  }

  /** Once the walk has stopped, further steps add no names. */
  lemma {:induction false} LineageStable(c: Collection, byId: map<int, Collection>, n: nat, m: nat)
    requires n <= m && Ancestor(c, byId, n).None?
    ensures Lineage(c, byId, m) == Lineage(c, byId, n)
    decreases m
  {
    if n < m {
      LineageStable(c, byId, n, m - 1);
      AncestorStaysNone(c, byId, n, m - 1);
    }
  }

  /** The path does not depend on which stopping point is used to compute it. */
  lemma PathFromAnyBound(c: Collection, all: seq<Collection>, n: nat)
    requires Ancestor(c, ById(all), n).None?
    ensures ReachesRoot(c, ById(all))
    ensures CollectionPath(c, all) == PathAfter(c, ById(all), n)
  {
    var byId := ById(all);
    var k := StopStep(c, byId);
    if k <= n {
      LineageStable(c, byId, k, n);
    } else {
      LineageStable(c, byId, n, k);
    }
  }

  /** A walk whose first step stops yields just the collection's own name. */
  lemma FirstStepStops(c: Collection, all: seq<Collection>)
    requires ParentOf(c, ById(all)).None?
    ensures ReachesRoot(c, ById(all))
    ensures CollectionPath(c, all) == "/" + c.name
  {
    var byId := ById(all);
    assert Ancestor(c, byId, 1).None?;
    assert Lineage(c, byId, 1) == [c.name];
    PathFromAnyBound(c, all, 1);
  }

  /** A root collection (parent id `None`, or the falsy `0`) has the path "/" + its name. */
  lemma RootPath(c: Collection, all: seq<Collection>)
    requires c.parentId == None || c.parentId == Some(0)
    ensures ReachesRoot(c, ById(all))
    ensures CollectionPath(c, all) == "/" + c.name
  {
    FirstStepStops(c, all);
  }

  /** A parent id that names no collection ends the walk without an error: the path is cut at the
      dangling link. */
  lemma DanglingParentPath(c: Collection, all: seq<Collection>)
    requires c.parentId.Some? && forall d | d in all :: d.id != c.parentId.value
    ensures ReachesRoot(c, ById(all))
    ensures CollectionPath(c, all) == "/" + c.name
  {
    FirstStepStops(c, all);
  }

  lemma {:induction false} AncestorShift(c: Collection, p: Collection, byId: map<int, Collection>, n: nat)
    requires ParentOf(c, byId) == Some(p)
    ensures Ancestor(c, byId, n + 1) == Ancestor(p, byId, n)
  {
    if n > 0 {
      AncestorShift(c, p, byId, n - 1);
    }
  }

  lemma {:induction false} LineageShift(c: Collection, p: Collection, byId: map<int, Collection>, n: nat)
    requires ParentOf(c, byId) == Some(p)
    ensures Lineage(c, byId, n + 1) == [c.name] + Lineage(p, byId, n)
  {
    if n > 0 {
      LineageShift(c, p, byId, n - 1);
      AncestorShift(c, p, byId, n - 1);
    }
  }

  lemma {:induction false} LineageNonEmpty(c: Collection, byId: map<int, Collection>, n: nat)
    requires n >= 1
    ensures Lineage(c, byId, n) != []
  {
    if n > 1 {
      LineageNonEmpty(c, byId, n - 1);
    }
  }

  lemma PathAfterChild(c: Collection, p: Collection, byId: map<int, Collection>, k: nat)
    requires ParentOf(c, byId) == Some(p) && k >= 1
    ensures PathAfter(c, byId, k + 1) == PathAfter(p, byId, k) + "/" + c.name
  {
    LineageShift(c, p, byId, k);
    LineageNonEmpty(p, byId, k);
    var up := Reverse(Lineage(p, byId, k));
    assert Reverse([c.name] + Lineage(p, byId, k)) == up + [c.name];
    JoinAppend("/", up, [c.name]);
  }

  /** The path of a collection with a parent is its parent's path, "/", and its own name: the
      names run root first and the collection itself comes last. */
  lemma ChildPath(c: Collection, p: Collection, all: seq<Collection>)
    requires ParentOf(c, ById(all)) == Some(p)
    requires ReachesRoot(p, ById(all))
    ensures ReachesRoot(c, ById(all))
    ensures CollectionPath(c, all) == CollectionPath(p, all) + "/" + c.name
  {
    var byId := ById(all);
    var k: nat :| Ancestor(p, byId, k).None?;
    AncestorShift(c, p, byId, k);
    PathFromAnyBound(c, all, k + 1);
    PathFromAnyBound(p, all, k);
    PathAfterChild(c, p, byId, k);
  }

  /** A set of collections each of whose parent links leads back into the set (a cycle) never
      reaches a root: on such data the walk of `build_collection_path` does not terminate. */
  lemma CycleNeverReachesRoot(c: Collection, byId: map<int, Collection>, cycle: set<Collection>)
    requires c in cycle
    requires forall x | x in cycle :: ParentOf(x, byId).Some? && ParentOf(x, byId).value in cycle
    ensures !ReachesRoot(c, byId)
  {
    forall n: nat ensures Ancestor(c, byId, n).Some? {
      AncestorInCycle(c, byId, cycle, n);
    }
  }

  lemma {:induction false} AncestorInCycle(c: Collection, byId: map<int, Collection>, cycle: set<Collection>, n: nat)
    requires c in cycle
    requires forall x | x in cycle :: ParentOf(x, byId).Some? && ParentOf(x, byId).value in cycle
    ensures Ancestor(c, byId, n).Some? && Ancestor(c, byId, n).value in cycle
  {
    if n > 0 {
      AncestorInCycle(c, byId, cycle, n - 1);
    }
  }

  /** The chain A <- B <- C of the repository's own test yields "/A", "/A/B" and "/A/B/C". */
  lemma ChainParents()
    ensures var a, b, c := Collection(1, "A", None), Collection(2, "B", Some(1)), Collection(3, "C", Some(2));
      ParentOf(b, ById([a, b, c])) == Some(a) && ParentOf(c, ById([a, b, c])) == Some(b)
  {
    var a, b, c := Collection(1, "A", None), Collection(2, "B", Some(1)), Collection(3, "C", Some(2));
    ByIdLastWins([a, b, c], 0);
    ByIdLastWins([a, b, c], 1);
  }

  lemma ChainExample()
    ensures var a, b, c := Collection(1, "A", None), Collection(2, "B", Some(1)), Collection(3, "C", Some(2));
      && ReachesRoot(a, ById([a, b, c])) && CollectionPath(a, [a, b, c]) == "/A"
      && ReachesRoot(b, ById([a, b, c])) && CollectionPath(b, [a, b, c]) == "/A/B"
      && ReachesRoot(c, ById([a, b, c])) && CollectionPath(c, [a, b, c]) == "/A/B/C"
  {
    var a, b, c := Collection(1, "A", None), Collection(2, "B", Some(1)), Collection(3, "C", Some(2));
    var all := [a, b, c];
    ChainParents();
    RootPath(a, all);
    ChildPath(b, a, all);
    ChildPath(c, b, all);
  }

  // ---------------------------------------------------------------------------------------------
  // The main database file

  /** A row of `PRAGMA database_list`: sequence number, schema name and file name ("" when the
      database has no file; SQL NULL is modelled as "" too, since both are falsy). */
  datatype DatabaseListRow = DatabaseListRow(seqNo: int, name: string, file: string)

  /** What running a query gives: its rows, or an exception. */
  datatype Query<T> = Rows(rows: seq<T>) | Raised

  predicate IsMainWithFile(r: DatabaseListRow) {
    r.name == "main" && r.file != ""
  }

  /** `get_db_path_for_connection`: the file of the first row named "main" that has a non-empty
      file; `None` when there is none or when the query raises. */
  method GetDbPathForConnection(databaseList: Query<DatabaseListRow>) returns (path: Option<string>)
    ensures path.Some? <==>
      databaseList.Rows? && exists i | 0 <= i < |databaseList.rows| :: IsMainWithFile(databaseList.rows[i])
    ensures path.Some? ==>
      && databaseList.Rows?
      && exists i | 0 <= i < |databaseList.rows| ::
        && IsMainWithFile(databaseList.rows[i])
        && path.value == databaseList.rows[i].file
        && forall k | 0 <= k < i :: !IsMainWithFile(databaseList.rows[k])
  {
    if databaseList.Raised? {
      return None;
    }
    var rows := databaseList.rows;
    for i := 0 to |rows|
      invariant forall k | 0 <= k < i :: !IsMainWithFile(rows[k])
    {
      if rows[i].name == "main" && rows[i].file != "" {
        return Some(rows[i].file);
      }
    }
    return None;
  }

  // ---------------------------------------------------------------------------------------------
  // The `attachments:` rewrite

  const AttachmentsScheme: string := "attachments:"

  /** The file of the first row named "main", even an empty one: the search of
      `_normalize_attachment_path` stops at that row. */
  function FirstMainFile(rows: seq<DatabaseListRow>): (f: Option<string>)
    ensures f.Some? <==> exists i | 0 <= i < |rows| :: rows[i].name == "main"
    ensures f.Some? ==>
      exists i | 0 <= i < |rows| ::
        && rows[i].name == "main" && f.value == rows[i].file
        && forall k | 0 <= k < i :: rows[k].name != "main"
  {
    if rows == [] then None
    else if rows[0].name == "main" then Some(rows[0].file)
    else
      var f := FirstMainFile(rows[1..]);
      assert forall i | 1 <= i < |rows| :: rows[i] == rows[1..][i - 1];
      f
  }

  /** `path.split(":", 1)[1]`: everything after the first colon. */
  function AfterFirstColon(path: string): string
    requires ':' in path
  {
    path[FirstIndexOf(path, ':') + 1..]
  }

  /** `Path(p).parent` for a normalised POSIX path: everything before the last "/", "/" for a
      file in the root directory, "." for a bare file name. */
  function ParentDir(p: string): string
  {
    if '/' !in p then "."
    else
      var k := LastIndexOf(p, '/');
      if k == 0 then "/" else p[..k]
  }

  /** `Path(base) / rel` for normalised POSIX paths: an absolute `rel` replaces `base`, an empty
      one adds nothing, and "." as `base` disappears. */
  function JoinPath(base: string, rel: string): string
  {
    if rel == "" then base
    else if StartsWith(rel, "/") then rel
    else if base == "." then rel
    else if EndsWith(base, "/") then base + rel
    else base + "/" + rel
  }

  /** What `_normalize_attachment_path` returns. Only an `attachments:` path is rewritten, and
      only when the first "main" row has a non-empty file; a query that raises leaves the path
      as it is. */
  function NormalizedPath(databaseList: Query<DatabaseListRow>, path: string): (r: string)
    ensures !StartsWith(path, AttachmentsScheme) ==> r == path
    ensures databaseList.Raised? ==> r == path
    ensures databaseList.Rows? && FirstMainFile(databaseList.rows) in {None, Some("")} ==> r == path
  {
    if databaseList.Rows? && StartsWith(path, AttachmentsScheme) then
      assert path[|AttachmentsScheme| - 1] == ':';
      match FirstMainFile(databaseList.rows)
      case Some(f) =>
        if f != "" then JoinPath(JoinPath(ParentDir(f), "storage"), AfterFirstColon(path)) else path
      case None => path
    else path
  }

  /** `_normalize_attachment_path`. */
  method NormalizeAttachmentPath(databaseList: Query<DatabaseListRow>, path: string) returns (r: string)
    ensures r == NormalizedPath(databaseList, path)
  {
    if databaseList.Raised? {
      return path;
    }
    var rows := databaseList.rows;
    var mainFile: Option<string> := None;
    for i := 0 to |rows|
      invariant mainFile.None?
      invariant forall k | 0 <= k < i :: rows[k].name != "main"
    {
      if rows[i].name == "main" {
        mainFile := Some(rows[i].file);
        break;
      }
    }
    assert mainFile == FirstMainFile(rows);
    if mainFile.Some? && mainFile.value != "" {
      var dataDir := ParentDir(mainFile.value);
      if StartsWith(path, AttachmentsScheme) {
        assert path[|AttachmentsScheme| - 1] == ':';
        var rel := AfterFirstColon(path);
        return JoinPath(JoinPath(dataDir, "storage"), rel);
      }
    }
    return path;
  }

  /** The rest of an `attachments:` path is everything after its first colon, later colons
      included. */
  lemma AttachmentRest(rest: string)
    ensures ':' in AttachmentsScheme + rest
    ensures AfterFirstColon(AttachmentsScheme + rest) == rest
  {
    var path := AttachmentsScheme + rest;
    assert path[11] == ':';
    assert forall i | 0 <= i < 11 :: path[i] == AttachmentsScheme[i] != ':';
    assert FirstIndexOf(path, ':') == 11;
  }

  /** The parent directory of `dir/name`, for a non-empty `dir` and a plain file name. */
  lemma ParentOfFile(dir: string, name: string)
    requires dir != "" && '/' !in name
    ensures ParentDir(dir + "/" + name) == dir
  {
    var f := dir + "/" + name;
    assert f[|dir|] == '/';
    forall i | |dir| < i < |f| ensures f[i] != '/' {
      assert f[i] == name[i - |dir| - 1];
    }
    assert LastIndexOf(f, '/') == |dir|;
    assert f[..|dir|] == dir;
  }

  /** For a main database file `dir/name` with an absolute `dir`, `attachments:rest` (with a
      relative, non-empty `rest`) becomes `dir/storage/rest`. */
  lemma RewriteUnderStorage(rows: seq<DatabaseListRow>, dir: string, name: string, rest: string)
    requires FirstMainFile(rows) == Some(dir + "/" + name)
    requires StartsWith(dir, "/") && !EndsWith(dir, "/") && '/' !in name
    requires rest != "" && !StartsWith(rest, "/")
    ensures NormalizedPath(Rows(rows), AttachmentsScheme + rest) == dir + "/storage/" + rest
  {
    var path := AttachmentsScheme + rest;
    ParentOfFile(dir, name);
    assert path[..|AttachmentsScheme|] == AttachmentsScheme;
    AttachmentRest(rest);
    assert dir != ".";
    var storage := JoinPath(dir, "storage");
    assert storage == dir + "/storage";
    assert !EndsWith(storage, "/");
    assert JoinPath(storage, rest) == dir + "/storage/" + rest;
  }

  // ---------------------------------------------------------------------------------------------
  // Attachments of an item

  /** A stored `itemAttachments.path` that is neither NULL (`None`) nor empty. */
  predicate IsStored(p: Option<string>) {
    p.Some? && p.value != ""
  }

  /** The stored paths that `fetch_attachments_for_item` keeps, in row order. */
  function StoredPaths(stored: seq<Option<string>>): (ps: seq<string>)
  {
    Map(Filter(stored, IsStored), (p: Option<string>) => if p.Some? then p.value else "")
  }

  /** Every kept path is non-empty, and the number kept is the number of rows with a non-empty
      path. */
  lemma {:induction false} StoredPathsCount(stored: seq<Option<string>>)
    ensures forall p | p in StoredPaths(stored) :: p != ""
    ensures |StoredPaths(stored)| == |set i | 0 <= i < |stored| && IsStored(stored[i])|
    decreases |stored|
  {
    var ps := StoredPaths(stored);
    forall p | p in ps ensures p != "" {
      var i :| 0 <= i < |ps| && ps[i] == p;
      assert Filter(stored, IsStored)[i] in Filter(stored, IsStored);
    }
    if stored != [] {
      var n := |stored| - 1;
      var init := stored[..n];
      StoredPathsCount(init);
      var before := set i | 0 <= i < n && IsStored(init[i]);
      var after := set i | 0 <= i < |stored| && IsStored(stored[i]);
      if IsStored(stored[n]) {
        assert after == before + {n};
      } else {
        assert after == before;
      }
    }
  }

  /** The kept paths of consecutive row runs are the kept paths of each run, in order. */
  lemma StoredPathsAppend(a: seq<Option<string>>, b: seq<Option<string>>)
    ensures StoredPaths(a + b) == StoredPaths(a) + StoredPaths(b)
  {
    FilterAppend(a, b, IsStored);
  }

  /** A single row contributes its path exactly when that path is non-empty. */
  lemma StoredPathsOfOne(p: Option<string>)
    ensures StoredPaths([p]) == if IsStored(p) then [p.value] else []
  {
    FilterSingleton(p, IsStored);
  }

  lemma StoredPathsSnoc(stored: seq<Option<string>>, i: nat)
    requires i < |stored|
    ensures StoredPaths(stored[..i + 1]) == StoredPaths(stored[..i]) + (if IsStored(stored[i]) then [stored[i].value] else [])
  {
    assert stored[..i + 1] == stored[..i] + [stored[i]];
    StoredPathsAppend(stored[..i], [stored[i]]);
    StoredPathsOfOne(stored[i]);
  }

  /** `fetch_attachments_for_item` on the rows its query returns: every non-empty stored path,
      in row order, normalised. */
  method FetchAttachmentsForItem(databaseList: Query<DatabaseListRow>, stored: seq<Option<string>>)
    returns (paths: seq<string>)
    ensures |paths| == |StoredPaths(stored)|
    ensures forall i | 0 <= i < |paths| :: paths[i] == NormalizedPath(databaseList, StoredPaths(stored)[i])
  {
    paths := [];
    for i := 0 to |stored|
      invariant |paths| == |StoredPaths(stored[..i])|
      invariant forall k | 0 <= k < |paths| ::
        paths[k] == NormalizedPath(databaseList, StoredPaths(stored[..i])[k])
    {
      StoredPathsSnoc(stored, i);
      var p := stored[i];
      if !IsStored(p) {
        continue;
      }
      var normalized := NormalizeAttachmentPath(databaseList, p.value);
      paths := paths + [normalized];
    }
    assert stored[..|stored|] == stored;
  }
}
