// The folder table as a parent relation (server/internal/httpapi/folder_handlers.go,
// server/migrations): chains of parents, when they end, and re-parenting.
module FolderTree {
  import opened Wrappers

  type Id = string

  datatype Folder = Folder(id: Id, parent: Option<Id>, createdBy: Id)

  predicate UniqueFolders(folders: seq<Folder>) {
    forall i, j :: 0 <= i < j < |folders| ==> folders[i].id != folders[j].id
  }

  function FindFolder(folders: seq<Folder>, id: Id): (r: Option<Folder>)
    ensures r.Some? ==> r.value in folders && r.value.id == id
    ensures r.None? ==> forall f :: f in folders ==> f.id != id
  {
    if folders == [] then None
    else if folders[0].id == id then Some(folders[0])
    else FindFolder(folders[1..], id)
  }

  // The d-th folder above `id`, itself for d = 0.
  function AncestorAt(folders: seq<Folder>, id: Id, d: nat): Option<Folder> {
    if d == 0 then FindFolder(folders, id)
    else
      var below := AncestorAt(folders, id, d - 1);
      if below.None? || below.value.parent.None? then None
      else FindFolder(folders, below.value.parent.value)
  }

  // No folder comes twice on the way up from `id`.
  ghost predicate AcyclicAbove(folders: seq<Folder>, id: Id) {
    forall d: nat, e: nat ::
      d < e && AncestorAt(folders, id, d).Some? && AncestorAt(folders, id, e).Some? ==>
        AncestorAt(folders, id, d).value.id != AncestorAt(folders, id, e).value.id
  }

  // No folder is above itself.
  ghost predicate Acyclic(folders: seq<Folder>) {
    forall id: Id, d: nat :: d > 0 && AncestorAt(folders, id, d).Some? ==> AncestorAt(folders, id, d).value.id != id
  }

  ghost predicate Above(folders: seq<Folder>, from: Id, id: Id) {
    exists d: nat :: AncestorAt(folders, from, d).Some? && AncestorAt(folders, from, d).value.id == id
  }

  ghost predicate Ends(folders: seq<Folder>, id: Id) {
    exists n: nat :: AncestorAt(folders, id, n).None?
  }

  // ---- chains ----

  lemma {:induction false} ChainStaysEnded(folders: seq<Folder>, id: Id, d: nat, e: nat)
    requires d <= e && AncestorAt(folders, id, d).None?
    ensures AncestorAt(folders, id, e).None?
    decreases e
  {
    if d < e {
      ChainStaysEnded(folders, id, d, e - 1);
    }
  }

  // Two chains that meet go on together.
  lemma {:induction false} TogetherFrom(folders: seq<Folder>, x: Id, d: nat, y: Id, e: nat, k: nat)
    requires AncestorAt(folders, x, d) == AncestorAt(folders, y, e)
    ensures AncestorAt(folders, x, d + k) == AncestorAt(folders, y, e + k)
  {
    if k > 0 {
      TogetherFrom(folders, x, d, y, e, k - 1);
    }
  }

  lemma SameIdSameFolder(folders: seq<Folder>, x: Id, d: nat, y: Id, e: nat)
    requires AncestorAt(folders, x, d).Some? && AncestorAt(folders, y, e).Some?
    requires AncestorAt(folders, x, d).value.id == AncestorAt(folders, y, e).value.id
    ensures AncestorAt(folders, x, d) == AncestorAt(folders, y, e)
  {
    FoundById(folders, x, d);
    FoundById(folders, y, e);
  }

  lemma FoundById(folders: seq<Folder>, x: Id, d: nat)
    requires AncestorAt(folders, x, d).Some?
    ensures AncestorAt(folders, x, d) == FindFolder(folders, AncestorAt(folders, x, d).value.id)
  {
  }

  // ---- a chain ends exactly when nothing comes twice on it ----

  function FolderIds(folders: seq<Folder>): (ids: set<Id>)
    ensures |ids| <= |folders|
    ensures forall f :: f in folders ==> f.id in ids
  {
    if folders == [] then {} else {folders[0].id} + FolderIds(folders[1..])
  }

  ghost predicate Within(folders: seq<Folder>, id: Id, n: nat, x: Id) {
    exists d: nat :: d < n && AncestorAt(folders, id, d).Some? && AncestorAt(folders, id, d).value.id == x
  }

  // The ids of the first n folders of a chain that has no repetition.
  lemma {:induction false} ChainIds(folders: seq<Folder>, id: Id, n: nat) returns (ids: set<Id>)
    requires AcyclicAbove(folders, id) && (n > 0 ==> AncestorAt(folders, id, n - 1).Some?)
    ensures |ids| == n && ids <= FolderIds(folders)
    ensures forall x :: x in ids ==> Within(folders, id, n, x)
  {
    if n == 0 {
      return {};
    }
    var m: nat := n - 1;
    var before := ChainIds(folders, id, m);
    var x := AncestorAt(folders, id, m).value.id;
    assert x !in before && Within(folders, id, n, x);
    ids := before + {x};
    forall y | y in ids ensures Within(folders, id, n, y) {
      assert y == x || Within(folders, id, m, y);
    }
  }

  lemma SubsetIsSmaller(a: set<Id>, b: set<Id>)
    requires a <= b
    ensures |a| <= |b|
  {
    assert b == a + (b - a);
  }

  // With k folders a chain has at most k, unless one comes twice.
  lemma EndsIfAcyclicAbove(folders: seq<Folder>, id: Id)
    requires AcyclicAbove(folders, id)
    ensures AncestorAt(folders, id, |folders|).None?
  {
    if AncestorAt(folders, id, |folders|).Some? {
      var ids := ChainIds(folders, id, |folders| + 1);
      SubsetIsSmaller(ids, FolderIds(folders));
      assert false;
    }
  }

  // What comes twice comes for ever.
  lemma {:induction false} RepeatingNeverEnds(folders: seq<Folder>, id: Id, d: nat, e: nat, n: nat)
    requires d < e && AncestorAt(folders, id, d).Some?
    requires AncestorAt(folders, id, d) == AncestorAt(folders, id, e)
    ensures AncestorAt(folders, id, n).Some?
    decreases n
  {
    if AncestorAt(folders, id, n).None? {
      if n <= e {
        ChainStaysEnded(folders, id, n, e);
      } else {
        RepeatingNeverEnds(folders, id, d, e, n - (e - d));
        TogetherFrom(folders, id, d, id, e, n - e);
      }
      assert false;
    }
  }

  lemma EndsIffAcyclicAbove(folders: seq<Folder>, id: Id)
    ensures Ends(folders, id) <==> AcyclicAbove(folders, id)
    ensures AncestorAt(folders, id, |folders|).None? <==> AcyclicAbove(folders, id)
  {
    if AcyclicAbove(folders, id) {
      EndsIfAcyclicAbove(folders, id);
    } else {
      var d: nat, e: nat :| d < e && AncestorAt(folders, id, d).Some? && AncestorAt(folders, id, e).Some?
                            && AncestorAt(folders, id, d).value.id == AncestorAt(folders, id, e).value.id;
      SameIdSameFolder(folders, id, d, id, e);
      forall n: nat ensures AncestorAt(folders, id, n).Some? {
        RepeatingNeverEnds(folders, id, d, e, n);
      }
    }
  }

  // The table is acyclic exactly when every chain in it is.
  lemma AcyclicIffAllAbove(folders: seq<Folder>)
    ensures Acyclic(folders) <==> forall id: Id :: AcyclicAbove(folders, id)
  {
    if Acyclic(folders) {
      forall x: Id ensures AcyclicAbove(folders, x) {
        forall d: nat, e: nat | d < e && AncestorAt(folders, x, d).Some? && AncestorAt(folders, x, e).Some?
          ensures AncestorAt(folders, x, d).value.id != AncestorAt(folders, x, e).value.id
        {
          var y := AncestorAt(folders, x, d).value.id;
          FoundById(folders, x, d);
          assert AncestorAt(folders, y, 0) == AncestorAt(folders, x, d);
          TogetherFrom(folders, x, d, y, 0, e - d);
        }
      }
    }
    if !Acyclic(folders) {
      var x: Id, d: nat :| d > 0 && AncestorAt(folders, x, d).Some? && AncestorAt(folders, x, d).value.id == x;
      FoundById(folders, x, d);
      assert AncestorAt(folders, x, 0) == AncestorAt(folders, x, d);
      assert !AcyclicAbove(folders, x);
    }
  }

  // ---- re-parenting ----

  datatype UpdateError = SelfParent | NoSuchParent

  function WithParent(folders: seq<Folder>, id: Id, parent: Option<Id>): (r: seq<Folder>)
    ensures |r| == |folders|
    ensures forall i :: 0 <= i < |r| ==>
              r[i] == if folders[i].id == id then folders[i].(parent := parent) else folders[i]
  {
    seq(|folders|, i requires 0 <= i < |folders| =>
      if folders[i].id == id then folders[i].(parent := parent) else folders[i])
  }

  // UPDATE folders SET parent_id = parent WHERE id = id. The table refuses a
  // folder as its own parent and a parent that does not exist, and nothing else.
  function Reparent(folders: seq<Folder>, id: Id, parent: Option<Id>): Result<seq<Folder>, UpdateError> {
    if FindFolder(folders, id).None? then Ok(folders)
    else if parent == Some(id) then Err(SelfParent)
    else if parent.Some? && FindFolder(folders, parent.value).None? then Err(NoSuchParent)
    else Ok(WithParent(folders, id, parent))
  }

  function Patched(f: Option<Folder>, id: Id, parent: Option<Id>): Option<Folder> {
    if f.Some? && f.value.id == id then Some(f.value.(parent := parent)) else f
  }

  lemma {:induction false} FindPatched(folders: seq<Folder>, id: Id, parent: Option<Id>, x: Id)
    ensures FindFolder(WithParent(folders, id, parent), x) == Patched(FindFolder(folders, x), id, parent)
  {
    if folders != [] {
      FindPatched(folders[1..], id, parent, x);
      assert WithParent(folders, id, parent)[1..] == WithParent(folders[1..], id, parent);
    }
  }

  // A chain is as it was up to and including the folder that moved.
  lemma {:induction false} SameBelow(folders: seq<Folder>, id: Id, parent: Option<Id>, x: Id, d: nat)
    requires !Within(folders, x, d, id)
    ensures AncestorAt(WithParent(folders, id, parent), x, d) == Patched(AncestorAt(folders, x, d), id, parent)
  {
    if d == 0 {
      FindPatched(folders, id, parent, x);
    } else {
      var below := AncestorAt(folders, x, d - 1);
      NotWithinLess(folders, x, d - 1, d, id);
      SameBelow(folders, id, parent, x, d - 1);
      if below.Some? && below.value.parent.Some? {
        FindPatched(folders, id, parent, below.value.parent.value);
      }
    }
  }

  lemma NotWithinLess(folders: seq<Folder>, x: Id, d: nat, e: nat, id: Id)
    requires !Within(folders, x, e, id) && d < e
    ensures !Within(folders, x, d, id)
    ensures AncestorAt(folders, x, d).Some? ==> AncestorAt(folders, x, d).value.id != id
  {
  }

  // From the moved folder up: its new parent's chain.
  lemma {:induction false} AboveMoved(folders: seq<Folder>, id: Id, p: Id, d: nat)
    requires FindFolder(folders, id).Some?
    ensures var moved := WithParent(folders, id, Some(p));
            AncestorAt(moved, id, d + 1) == AncestorAt(moved, p, d)
  {
    var moved := WithParent(folders, id, Some(p));
    if d == 0 {
      FindPatched(folders, id, Some(p), id);
      assert AncestorAt(moved, id, 0).value.parent == Some(p);
    } else {
      AboveMoved(folders, id, p, d - 1);
    }
  }

  // A chain without the moved folder ends as before.
  lemma EndsAway(folders: seq<Folder>, id: Id, parent: Option<Id>, x: Id)
    requires Ends(folders, x) && !Above(folders, x, id)
    ensures Ends(WithParent(folders, id, parent), x)
  {
    var n: nat :| AncestorAt(folders, x, n).None?;
    assert !Within(folders, x, n, id);
    SameBelow(folders, id, parent, x, n);
  }

  lemma MovedEnds(folders: seq<Folder>, id: Id, parent: Option<Id>)
    requires Acyclic(folders) && FindFolder(folders, id).Some?
    requires parent.Some? ==> !Above(folders, parent.value, id)
    ensures Ends(WithParent(folders, id, parent), id)
  {
    var moved := WithParent(folders, id, parent);
    if parent.None? {
      FindPatched(folders, id, parent, id);
      assert AncestorAt(moved, id, 0).value.parent.None?;
      assert AncestorAt(moved, id, 1).None?;
    } else {
      AcyclicIffAllAbove(folders);
      EndsIffAcyclicAbove(folders, parent.value);
      EndsAway(folders, id, parent, parent.value);
      var n: nat :| AncestorAt(moved, parent.value, n).None?;
      AboveMoved(folders, id, parent.value, n);
    }
  }

  // A chain through the moved folder joins its chain there.
  lemma EndsThroughMoved(folders: seq<Folder>, id: Id, parent: Option<Id>, x: Id)
    requires AcyclicAbove(folders, x) && Above(folders, x, id) && Ends(WithParent(folders, id, parent), id)
    ensures Ends(WithParent(folders, id, parent), x)
  {
    var moved := WithParent(folders, id, parent);
    var d: nat :| AncestorAt(folders, x, d).Some? && AncestorAt(folders, x, d).value.id == id;
    assert !Within(folders, x, d, id);
    SameBelow(folders, id, parent, x, d);
    FoundById(moved, x, d);
    assert AncestorAt(moved, x, d) == AncestorAt(moved, id, 0);
    var n: nat :| AncestorAt(moved, id, n).None?;
    TogetherFrom(moved, x, d, id, 0, n);
  }

  lemma ChainEndsWhenMoved(folders: seq<Folder>, id: Id, parent: Option<Id>, x: Id)
    requires AcyclicAbove(folders, x) && Ends(WithParent(folders, id, parent), id)
    ensures AcyclicAbove(WithParent(folders, id, parent), x)
  {
    EndsIffAcyclicAbove(folders, x);
    if Above(folders, x, id) {
      EndsThroughMoved(folders, id, parent, x);
    } else {
      EndsAway(folders, id, parent, x);
    }
    EndsIffAcyclicAbove(WithParent(folders, id, parent), x);
  }

  lemma CycleMade(folders: seq<Folder>, id: Id, p: Id)
    requires AcyclicAbove(folders, p) && Above(folders, p, id) && FindFolder(folders, id).Some?
    ensures !AcyclicAbove(WithParent(folders, id, Some(p)), id)
  {
    var moved := WithParent(folders, id, Some(p));
    var d: nat :| AncestorAt(folders, p, d).Some? && AncestorAt(folders, p, d).value.id == id;
    assert !Within(folders, p, d, id);
    SameBelow(folders, id, Some(p), p, d);
    AboveMoved(folders, id, p, d);
    FindPatched(folders, id, Some(p), id);
    assert AncestorAt(moved, id, d + 1).value.id == AncestorAt(moved, id, 0).value.id;
  }

  // The guard that the handler lacks: an acyclic table stays acyclic exactly
  // when the folder is not on the way up from its new parent. Otherwise the
  // folder itself has a chain that never ends.
  lemma ReparentAcyclicIff(folders: seq<Folder>, id: Id, parent: Option<Id>)
    requires Acyclic(folders) && FindFolder(folders, id).Some? && Reparent(folders, id, parent).Ok?
    ensures var moved := Reparent(folders, id, parent).value;
            && (Acyclic(moved) <==> parent.None? || !Above(folders, parent.value, id))
            && (Acyclic(moved) <==> AcyclicAbove(moved, id))
  {
    var moved := WithParent(folders, id, parent);
    AcyclicIffAllAbove(folders);
    AcyclicIffAllAbove(moved);
    if parent.Some? && Above(folders, parent.value, id) {
      CycleMade(folders, id, parent.value);
    } else {
      MovedEnds(folders, id, parent);
      forall x: Id ensures AcyclicAbove(moved, x) {
        ChainEndsWhenMoved(folders, id, parent, x);
      }
    }
  }

  // A move that the handler accepts and that makes a cycle: a folder put below
  // its own child.
  lemma AcceptedMoveMakesCycle(owner: Id)
    ensures var table := [Folder("a", None, owner), Folder("b", Some("a"), owner)];
            && UniqueFolders(table) && Acyclic(table)
            && Reparent(table, "a", Some("b")).Ok? && Above(table, "b", "a")
            && !Acyclic(Reparent(table, "a", Some("b")).value)
  {
    var table := [Folder("a", None, owner), Folder("b", Some("a"), owner)];
    assert table[1..] == [table[1]];
    assert FindFolder(table, "a") == Some(table[0]) && FindFolder(table, "b") == Some(table[1]);
    assert AncestorAt(table, "b", 1) == Some(table[0]);
    forall id: Id ensures AcyclicAbove(table, id) {
      assert id == "a" ==> AncestorAt(table, id, 1).None?;
      assert id == "b" ==> AncestorAt(table, id, 2).None?;
      assert id != "a" && id != "b" ==> AncestorAt(table, id, 0).None?;
      EndsIffAcyclicAbove(table, id);
    }
    AcyclicIffAllAbove(table);
    ReparentAcyclicIff(table, "a", Some("b"));
  }

  // What the table refuses, and what a move does otherwise.
  lemma ReparentDoes(folders: seq<Folder>, id: Id, parent: Option<Id>)
    ensures var r := Reparent(folders, id, parent);
            && (r == Err(SelfParent) <==> FindFolder(folders, id).Some? && parent == Some(id))
            && (r == Err(NoSuchParent) <==>
                  FindFolder(folders, id).Some? && parent != Some(id)
                  && parent.Some? && FindFolder(folders, parent.value).None?)
            && (r.Ok? ==> |r.value| == |folders| && forall i :: 0 <= i < |folders| ==>
                  r.value[i] == if folders[i].id == id then folders[i].(parent := parent) else folders[i])
  {
    if FindFolder(folders, id).None? {
      assert forall f :: f in folders ==> f.id != id;
      assert forall i :: 0 <= i < |folders| ==> folders[i] in folders;
    }
  }
}
