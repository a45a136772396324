// Effective permissions on folders and items (server/internal/auth/folders.go
// and items.go). The first half evaluates the SQL row by row: sequences of
// rows, NULLs, the recursive CTE, the outer join, UNION ALL and bool_or. The
// second half says in one sentence each what the answers mean.
module Permissions {
  import opened Wrappers
  import opened FolderTree

  type Instant = int

  // ---- tables ----

  datatype Perm = Read | Write

  datatype Access = NoAccess | ReadAccess | WriteAccess {
    predicate AtMost(that: Access) {
      NoAccess? || this == that || that.WriteAccess?
    }
  }

  // revoked_at, valid_from, valid_until
  datatype Window = Window(revoked: bool, from: Option<Instant>, until: Option<Instant>) {
    predicate Active(now: Instant) {
      && !revoked
      && (from.None? || from.value <= now)
      && (until.None? || until.value > now)
    }
  }

  datatype UserGrant = UserGrant(folder: Id, user: Id, perm: Perm, inherit: bool, window: Window)
  datatype GroupGrant = GroupGrant(folder: Id, group: Id, perm: Perm, inherit: bool, window: Window)
  datatype Member = Member(group: Id, user: Id)
  datatype Item = Item(id: Id, folder: Id, createdBy: Id)
  datatype Share = Share(item: Id, user: Id, perm: Perm, window: Window)
  datatype GroupShare = GroupShare(item: Id, group: Id, perm: Perm, window: Window)

  datatype Db = Db(
    folders: seq<Folder>,
    userGrants: seq<UserGrant>,
    groupGrants: seq<GroupGrant>,
    members: seq<Member>,
    items: seq<Item>,
    shares: seq<Share>,
    groupShares: seq<GroupShare>)

  // UNIQUE (item_id, user_id) on item_shares
  predicate UniqueShares(shares: seq<Share>) {
    forall i, j :: 0 <= i < j < |shares| ==>
      shares[i].item != shares[j].item || shares[i].user != shares[j].user
  }

  // ---- three-valued logic ----

  datatype Tri = True | False | Null

  function FromBool(b: bool): Tri { if b then True else False }

  function And(a: Tri, b: Tri): Tri {
    if a.False? || b.False? then False
    else if a.Null? || b.Null? then Null
    else True
  }

  // bool_or ignores NULL and is NULL over no non-NULL value.
  function BoolOr(values: seq<Tri>): (r: Tri)
    ensures r.True? <==> True in values
  {
    if values == [] then Null
    else
      var rest := BoolOr(values[1..]);
      if values[0].True? || rest.True? then True
      else if values[0].False? || rest.False? then False
      else Null
  }

  // ---- the query of ResolveFolderPermission ----

  datatype AncestorRow = AncestorRow(id: Id, parent: Option<Id>, createdBy: Id, depth: nat)

  datatype PermRow = PermRow(depth: nat, createdBy: Id, inherit: bool, perm: Option<Perm>)

  // SELECT id, parent_id, created_by, depth FROM folders WHERE id = id
  function FolderRows(folders: seq<Folder>, id: Id, depth: nat): seq<AncestorRow> {
    if folders == [] then []
    else
      (if folders[0].id == id
       then [AncestorRow(folders[0].id, folders[0].parent, folders[0].createdBy, depth)] else [])
      + FolderRows(folders[1..], id, depth)
  }

  // folders f JOIN work a ON f.id = a.parent_id; a NULL parent joins nothing.
  function ParentRows(folders: seq<Folder>, work: seq<AncestorRow>): seq<AncestorRow> {
    if work == [] then []
    else
      (if work[0].parent.Some? then FolderRows(folders, work[0].parent.value, work[0].depth + 1) else [])
      + ParentRows(folders, work[1..])
  }

  // The recursion runs out of rows after at most n rounds.
  predicate Exhausts(folders: seq<Folder>, work: seq<AncestorRow>, n: nat)
    decreases n
  {
    work == [] || (n > 0 && Exhausts(folders, ParentRows(folders, work), n - 1))
  }

  // WITH RECURSIVE ancestors: the working table feeds the next round until it
  // is empty, and UNION ALL keeps every round.
  function Ancestors(folders: seq<Folder>, work: seq<AncestorRow>, n: nat): seq<AncestorRow>
    requires Exhausts(folders, work, n)
    decreases n
  {
    if work == [] then [] else work + Ancestors(folders, ParentRows(folders, work), n - 1)
  }

  function MatchingGrants(grants: seq<UserGrant>, a: AncestorRow, user: Id, now: Instant): seq<PermRow> {
    if grants == [] then []
    else
      (if grants[0].folder == a.id && grants[0].user == user && grants[0].window.Active(now)
       then [PermRow(a.depth, a.createdBy, grants[0].inherit, Some(grants[0].perm))] else [])
      + MatchingGrants(grants[1..], a, user, now)
  }

  // LEFT JOIN: an ancestor without a grant still gives one row, NULL-padded,
  // with inherit_to_children coalesced to false.
  function DirectRows(db: Db, user: Id, now: Instant, ancestors: seq<AncestorRow>): seq<PermRow> {
    if ancestors == [] then []
    else
      var a := ancestors[0];
      var matching := MatchingGrants(db.userGrants, a, user, now);
      (if matching == [] then [PermRow(a.depth, a.createdBy, false, None)] else matching)
      + DirectRows(db, user, now, ancestors[1..])
  }

  function MemberRows(members: seq<Member>, g: GroupGrant, a: AncestorRow, user: Id): seq<PermRow> {
    if members == [] then []
    else
      (if members[0].group == g.group && members[0].user == user
       then [PermRow(a.depth, a.createdBy, g.inherit, Some(g.perm))] else [])
      + MemberRows(members[1..], g, a, user)
  }

  function GroupGrantRows(db: Db, grants: seq<GroupGrant>, a: AncestorRow, user: Id, now: Instant): seq<PermRow> {
    if grants == [] then []
    else
      (if grants[0].folder == a.id && grants[0].window.Active(now)
       then MemberRows(db.members, grants[0], a, user) else [])
      + GroupGrantRows(db, grants[1..], a, user, now)
  }

  function GroupRows(db: Db, user: Id, now: Instant, ancestors: seq<AncestorRow>): seq<PermRow> {
    if ancestors == [] then []
    else
      GroupGrantRows(db, db.groupGrants, ancestors[0], user, now)
      + GroupRows(db, user, now, ancestors[1..])
  }

  function PermRows(db: Db, user: Id, now: Instant, ancestors: seq<AncestorRow>): seq<PermRow> {
    DirectRows(db, user, now, ancestors) + GroupRows(db, user, now, ancestors)
  }

  // permission = 'write', permission IN ('read', 'write')
  function Satisfies(perm: Option<Perm>, need: Perm): Tri {
    if perm.None? then Null else FromBool(need.Read? || perm.value.Write?)
  }

  function OwnerColumn(rows: seq<PermRow>, user: Id): seq<Tri> {
    seq(|rows|, i requires 0 <= i < |rows| => FromBool(rows[i].depth == 0 && rows[i].createdBy == user))
  }

  function NeedColumn(rows: seq<PermRow>, need: Perm): seq<Tri> {
    seq(|rows|, i requires 0 <= i < |rows| =>
      And(FromBool(rows[i].depth == 0 || rows[i].inherit), Satisfies(rows[i].perm, need)))
  }

  // On a table where it ends, which it then does within |db.folders| rounds.
  function FolderQuery(db: Db, user: Id, folder: Id, now: Instant): Access
    requires UniqueFolders(db.folders) && AcyclicAbove(db.folders, folder)
  {
    RecursionEndsIff(db.folders, folder);
    var ancestors := Ancestors(db.folders, FolderRows(db.folders, folder, 0), |db.folders|);
    var perms := PermRows(db, user, now, ancestors);
    if ancestors == [] then NoAccess
    else if BoolOr(OwnerColumn(perms, user)).True? then WriteAccess
    else if BoolOr(NeedColumn(perms, Write)).True? then WriteAccess
    else if BoolOr(NeedColumn(perms, Read)).True? then ReadAccess
    else NoAccess
  }

  datatype EmptyId = EmptyId

  function ResolveFolder(db: Db, user: Id, folder: Id, now: Instant): Result<Access, EmptyId>
    requires UniqueFolders(db.folders)
    requires AcyclicAbove(db.folders, folder)
  {
    if user == "" || folder == "" then Err(EmptyId) else Ok(FolderQuery(db, user, folder, now))
  }

  // ---- ResolveItemPermission ----

  function FindItem(items: seq<Item>, id: Id): (r: Option<Item>)
    ensures r.Some? ==> r.value in items && r.value.id == id
    ensures r.None? ==> forall item :: item in items ==> item.id != id
  {
    if items == [] then None
    else if items[0].id == id then Some(items[0])
    else FindItem(items[1..], id)
  }

  // SELECT permission FROM item_shares WHERE ... LIMIT 1
  function FirstShare(shares: seq<Share>, item: Id, user: Id, now: Instant): Option<Perm> {
    if shares == [] then None
    else if shares[0].item == item && shares[0].user == user && shares[0].window.Active(now)
    then Some(shares[0].perm)
    else FirstShare(shares[1..], item, user, now)
  }

  function MemberPerms(members: seq<Member>, g: GroupShare, user: Id): seq<Perm> {
    if members == [] then []
    else
      (if members[0].group == g.group && members[0].user == user then [g.perm] else [])
      + MemberPerms(members[1..], g, user)
  }

  function GroupSharePerms(db: Db, shares: seq<GroupShare>, item: Id, user: Id, now: Instant): seq<Perm> {
    if shares == [] then []
    else
      (if shares[0].item == item && shares[0].window.Active(now)
       then MemberPerms(db.members, shares[0], user) else [])
      + GroupSharePerms(db, shares[1..], item, user, now)
  }

  // ORDER BY permission DESC LIMIT 1; 'write' sorts after 'read'.
  function TopPerm(perms: seq<Perm>): (r: Option<Perm>)
    ensures r == (if Write in perms then Some(Write) else if Read in perms then Some(Read) else None)
  {
    if perms == [] then None
    else
      var rest := TopPerm(perms[1..]);
      if perms[0].Write? || rest.None? then Some(perms[0]) else rest
  }

  function FromPerm(perm: Option<Perm>): Access {
    if perm.None? then NoAccess else if perm.value.Write? then WriteAccess else ReadAccess
  }

  function MaxAccess(a: Access, b: Access): Access {
    if a.WriteAccess? || b.WriteAccess? then WriteAccess
    else if a.ReadAccess? || b.ReadAccess? then ReadAccess
    else NoAccess
  }

  function ItemQuery(db: Db, user: Id, id: Id, now: Instant): Access
    requires UniqueFolders(db.folders)
    requires var item := FindItem(db.items, id);
             item.Some? ==> AcyclicAbove(db.folders, item.value.folder)
  {
    var item := FindItem(db.items, id);
    if item.None? then NoAccess
    else if item.value.createdBy == user then WriteAccess
    else
      var fromShare := FromPerm(FirstShare(db.shares, id, user, now));
      if fromShare.WriteAccess? then WriteAccess
      else
        var fromGroupShare := FromPerm(TopPerm(GroupSharePerms(db, db.groupShares, id, user, now)));
        if fromGroupShare.WriteAccess? then WriteAccess
        else
          var fromFolder := FolderQuery(db, user, item.value.folder, now);
          MaxAccess(MaxAccess(fromShare, fromGroupShare), fromFolder)
  }

  function ResolveItem(db: Db, user: Id, id: Id, now: Instant): Result<Access, EmptyId>
    requires UniqueFolders(db.folders)
    requires var item := FindItem(db.items, id);
             item.Some? ==> AcyclicAbove(db.folders, item.value.folder)
  {
    if user == "" || id == "" then Err(EmptyId) else Ok(ItemQuery(db, user, id, now))
  }

  // ---- the meaning of the folder answer ----

  predicate Covers(perm: Perm, need: Perm) {
    need.Read? || perm.Write?
  }

  ghost predicate Granted(db: Db, user: Id, now: Instant, folder: Id, need: Perm, inherited: bool) {
    || (exists g :: g in db.userGrants && g.folder == folder && g.user == user && g.window.Active(now)
          && Covers(g.perm, need) && (inherited ==> g.inherit))
    || (exists g :: g in db.groupGrants && g.folder == folder && Member(g.group, user) in db.members
          && g.window.Active(now) && Covers(g.perm, need) && (inherited ==> g.inherit))
  }

  // A grant on the folder itself, or an inheriting one on a folder above it.
  ghost predicate Reaches(db: Db, user: Id, now: Instant, folder: Id, need: Perm) {
    exists d: nat :: AncestorAt(db.folders, folder, d).Some?
      && Granted(db, user, now, AncestorAt(db.folders, folder, d).value.id, need, d > 0)
  }

  predicate OwnsFolder(db: Db, user: Id, folder: Id) {
    var f := FindFolder(db.folders, folder);
    f.Some? && f.value.createdBy == user
  }

  ghost function FolderMeaning(db: Db, user: Id, folder: Id, now: Instant): Access {
    if OwnsFolder(db, user, folder) || Reaches(db, user, now, folder, Write) then WriteAccess
    else if Reaches(db, user, now, folder, Read) then ReadAccess
    else NoAccess
  }

  // ---- the recursion walks the parent chain ----

  function ChainRow(f: Folder, depth: nat): AncestorRow {
    AncestorRow(f.id, f.parent, f.createdBy, depth)
  }

  function ChainLevel(folders: seq<Folder>, id: Id, d: nat): seq<AncestorRow> {
    var f := AncestorAt(folders, id, d);
    if f.None? then [] else [ChainRow(f.value, d)]
  }

  lemma {:induction false} FolderRowsUnique(folders: seq<Folder>, id: Id, depth: nat)
    requires UniqueFolders(folders)
    ensures var f := FindFolder(folders, id);
            FolderRows(folders, id, depth) == if f.None? then [] else [ChainRow(f.value, depth)]
  {
    if folders != [] {
      FolderRowsUnique(folders[1..], id, depth);
    }
  }

  lemma ParentOfLevel(folders: seq<Folder>, id: Id, d: nat)
    requires UniqueFolders(folders)
    ensures ParentRows(folders, ChainLevel(folders, id, d)) == ChainLevel(folders, id, d + 1)
  {
    var f := AncestorAt(folders, id, d);
    if f.Some? {
      var level := ChainLevel(folders, id, d);
      assert level[1..] == [];
      if f.value.parent.Some? {
        FolderRowsUnique(folders, f.value.parent.value, d + 1);
      }
    }
  }

  predicate IsChainRow(folders: seq<Folder>, id: Id, row: AncestorRow, d: nat) {
    AncestorAt(folders, id, d).Some? && row == ChainRow(AncestorAt(folders, id, d).value, d)
  }

  // `rows` are all of the chain from depth d on, in order.
  predicate IsChain(folders: seq<Folder>, id: Id, rows: seq<AncestorRow>, d: nat) {
    && (forall i :: 0 <= i < |rows| ==> IsChainRow(folders, id, rows[i], d + i))
    && AncestorAt(folders, id, d + |rows|).None?
  }

  lemma ConsChain(folders: seq<Folder>, id: Id, row: AncestorRow, rest: seq<AncestorRow>, d: nat)
    requires IsChainRow(folders, id, row, d) && IsChain(folders, id, rest, d + 1)
    ensures IsChain(folders, id, [row] + rest, d)
  {
  }

  lemma {:induction false} AncestorsAreChain(folders: seq<Folder>, id: Id, d: nat, n: nat)
    requires UniqueFolders(folders) && Exhausts(folders, ChainLevel(folders, id, d), n)
    ensures IsChain(folders, id, Ancestors(folders, ChainLevel(folders, id, d), n), d)
    decreases n
  {
    if AncestorAt(folders, id, d).Some? {
      ParentOfLevel(folders, id, d);
      AncestorsAreChain(folders, id, d + 1, n - 1);
      ConsChain(folders, id, ChainRow(AncestorAt(folders, id, d).value, d),
        Ancestors(folders, ChainLevel(folders, id, d + 1), n - 1), d);
    }
  }

  // Every ancestor comes out exactly once, at its true depth.
  lemma AncestorsOnceAtTrueDepth(folders: seq<Folder>, id: Id)
    requires UniqueFolders(folders) && AcyclicAbove(folders, id)
    ensures Finishes(folders, id, |folders|)
    ensures var rows := Ancestors(folders, FolderRows(folders, id, 0), |folders|);
            && (forall d: nat :: AncestorAt(folders, id, d).Some? <==> d < |rows|)
            && (forall d :: 0 <= d < |rows| ==> IsChainRow(folders, id, rows[d], d))
            && (forall d, e :: 0 <= d < e < |rows| ==> rows[d].id != rows[e].id)
  {
    RecursionEndsIff(folders, id);
    FolderRowsUnique(folders, id, 0);
    AncestorsAreChain(folders, id, 0, |folders|);
    var rows := Ancestors(folders, FolderRows(folders, id, 0), |folders|);
    forall d: nat ensures AncestorAt(folders, id, d).Some? <==> d < |rows| {
      if d >= |rows| {
        ChainStaysEnded(folders, id, |rows|, d);
      } else {
        assert IsChainRow(folders, id, rows[d], 0 + d);
      }
    }
    forall d: nat, e: nat | d < e < |rows| ensures rows[d].id != rows[e].id {
      assert IsChainRow(folders, id, rows[d], 0 + d) && IsChainRow(folders, id, rows[e], 0 + e);
    }
  }

  lemma {:induction false} ExhaustsIffChainEnds(folders: seq<Folder>, id: Id, d: nat, n: nat, e: nat)
    requires UniqueFolders(folders) && e == d + n
    ensures Exhausts(folders, ChainLevel(folders, id, d), n) <==> AncestorAt(folders, id, e).None?
    decreases n
  {
    if AncestorAt(folders, id, d).None? {
      ChainStaysEnded(folders, id, d, e);
    } else if n > 0 {
      ExhaustsFromParents(folders, id, d, n);
      ExhaustsIffChainEnds(folders, id, d + 1, n - 1, e);
    }
  }

  lemma ExhaustsFromParents(folders: seq<Folder>, id: Id, d: nat, n: nat)
    requires UniqueFolders(folders) && AncestorAt(folders, id, d).Some? && n > 0
    ensures Exhausts(folders, ChainLevel(folders, id, d), n) <==>
            Exhausts(folders, ChainLevel(folders, id, d + 1), n - 1)
  {
    ParentOfLevel(folders, id, d);
    assert ChainLevel(folders, id, d) != [];
  }

  // The recursion from `id` ends within `n` rounds.
  predicate Finishes(folders: seq<Folder>, id: Id, n: nat) {
    Exhausts(folders, FolderRows(folders, id, 0), n)
  }

  lemma FinishesIffChainEnds(folders: seq<Folder>, id: Id, n: nat)
    requires UniqueFolders(folders)
    ensures Finishes(folders, id, n) <==> AncestorAt(folders, id, n).None?
  {
    FolderRowsUnique(folders, id, 0);
    ExhaustsIffChainEnds(folders, id, 0, n, n);
  }

  // The recursion ends exactly when no folder comes twice on the way up, and
  // then within as many rounds as there are folders.
  lemma RecursionEndsIff(folders: seq<Folder>, id: Id)
    requires UniqueFolders(folders)
    ensures (exists n: nat :: Finishes(folders, id, n)) <==> AcyclicAbove(folders, id)
    ensures Finishes(folders, id, |folders|) <==> AcyclicAbove(folders, id)
  {
    EndsIffAcyclicAbove(folders, id);
    FinishesIffChainEnds(folders, id, |folders|);
    if n: nat :| Finishes(folders, id, n) {
      FinishesIffChainEnds(folders, id, n);
    }
  }

  // It ends for every folder exactly when no folder is above itself.
  lemma AllRecursionsEndIff(folders: seq<Folder>)
    requires UniqueFolders(folders)
    ensures (forall id: Id :: Finishes(folders, id, |folders|)) <==> Acyclic(folders)
  {
    AcyclicIffAllAbove(folders);
    forall id: Id
      ensures Finishes(folders, id, |folders|) <==> AcyclicAbove(folders, id)
    {
      RecursionEndsIff(folders, id);
    }
  }

  // The handler lets a folder be moved below itself, and from then on the
  // recursion for it never ends; any other move keeps every recursion ending.
  lemma ReparentEndsIff(folders: seq<Folder>, id: Id, parent: Option<Id>, n: nat)
    requires UniqueFolders(folders) && Acyclic(folders) && FindFolder(folders, id).Some?
    requires Reparent(folders, id, parent).Ok?
    ensures var moved := Reparent(folders, id, parent).value;
            if parent.Some? && Above(folders, parent.value, id)
            then !Finishes(moved, id, n)
            else forall x: Id :: Finishes(moved, x, |moved|)
  {
    var moved := Reparent(folders, id, parent).value;
    ReparentAcyclicIff(folders, id, parent);
    RecursionEndsIff(moved, id);
    AllRecursionsEndIff(moved);
  }

  // ---- the joined rows are the grants on the chain ----

  predicate IsGrantRow(r: PermRow, a: AncestorRow, inherit: bool, perm: Perm) {
    r == PermRow(a.depth, a.createdBy, inherit, Some(perm))
  }

  lemma {:induction false} MatchingGrantsAre(grants: seq<UserGrant>, a: AncestorRow, user: Id, now: Instant, r: PermRow)
    ensures r in MatchingGrants(grants, a, user, now) <==>
            exists g :: g in grants && g.folder == a.id && g.user == user && g.window.Active(now)
                        && IsGrantRow(r, a, g.inherit, g.perm)
  {
    if grants != [] {
      MatchingGrantsAre(grants[1..], a, user, now, r);
      assert grants == [grants[0]] + grants[1..];
    }
  }

  lemma {:induction false} MemberRowsAre(members: seq<Member>, g: GroupGrant, a: AncestorRow, user: Id, r: PermRow)
    ensures r in MemberRows(members, g, a, user) <==>
            Member(g.group, user) in members && IsGrantRow(r, a, g.inherit, g.perm)
  {
    if members != [] {
      MemberRowsAre(members[1..], g, a, user, r);
      assert members == [members[0]] + members[1..];
    }
  }

  lemma {:induction false} GroupGrantRowsAre(db: Db, grants: seq<GroupGrant>, a: AncestorRow, user: Id,
                                             now: Instant, r: PermRow)
    ensures r in GroupGrantRows(db, grants, a, user, now) <==>
            exists g :: g in grants && g.folder == a.id && Member(g.group, user) in db.members
                        && g.window.Active(now) && IsGrantRow(r, a, g.inherit, g.perm)
  {
    if grants != [] {
      GroupGrantRowsAre(db, grants[1..], a, user, now, r);
      MemberRowsAre(db.members, grants[0], a, user, r);
      assert grants == [grants[0]] + grants[1..];
    }
  }

  // The rows the two halves of the UNION ALL contribute for one ancestor.
  predicate RowOf(db: Db, user: Id, now: Instant, a: AncestorRow, r: PermRow) {
    var matching := MatchingGrants(db.userGrants, a, user, now);
    || (if matching == [] then r == PermRow(a.depth, a.createdBy, false, None) else r in matching)
    || r in GroupGrantRows(db, db.groupGrants, a, user, now)
  }

  lemma {:induction false} PermRowsAre(db: Db, user: Id, now: Instant, ancestors: seq<AncestorRow>, r: PermRow)
    ensures r in PermRows(db, user, now, ancestors) <==> exists a :: a in ancestors && RowOf(db, user, now, a, r)
  {
    if ancestors != [] {
      var rest := ancestors[1..];
      PermRowsAre(db, user, now, rest, r);
      assert r in PermRows(db, user, now, ancestors) <==>
             RowOf(db, user, now, ancestors[0], r) || r in PermRows(db, user, now, rest);
      assert forall a :: a in ancestors <==> a == ancestors[0] || a in rest;
    }
  }

  predicate Counts(r: PermRow, need: Perm) {
    (r.depth == 0 || r.inherit) && r.perm.Some? && Covers(r.perm.value, need)
  }

  lemma NeedColumnTrue(rows: seq<PermRow>, need: Perm)
    ensures True in NeedColumn(rows, need) <==> exists r :: r in rows && Counts(r, need)
  {
    var column := NeedColumn(rows, need);
    forall i | 0 <= i < |rows| ensures column[i].True? <==> Counts(rows[i], need) {}
    if r :| r in rows && Counts(r, need) {
      var i :| 0 <= i < |rows| && rows[i] == r;
      assert column[i].True?;
    }
  }

  lemma OwnerColumnTrue(rows: seq<PermRow>, user: Id)
    ensures True in OwnerColumn(rows, user) <==> exists r :: r in rows && r.depth == 0 && r.createdBy == user
  {
    var column := OwnerColumn(rows, user);
    forall i | 0 <= i < |rows| ensures column[i].True? <==> rows[i].depth == 0 && rows[i].createdBy == user {}
    if r :| r in rows && r.depth == 0 && r.createdBy == user {
      var i :| 0 <= i < |rows| && rows[i] == r;
      assert column[i].True?;
    }
  }

  // An ancestor has a counting row exactly when it carries a grant.
  lemma CountingRowsOf(db: Db, user: Id, now: Instant, a: AncestorRow, need: Perm)
    ensures (exists r :: RowOf(db, user, now, a, r) && Counts(r, need))
            <==> Granted(db, user, now, a.id, need, a.depth > 0)
  {
    if r :| RowOf(db, user, now, a, r) && Counts(r, need) {
      MatchingGrantsAre(db.userGrants, a, user, now, r);
      GroupGrantRowsAre(db, db.groupGrants, a, user, now, r);
    }
    if g :| g in db.userGrants && g.folder == a.id && g.user == user && g.window.Active(now)
            && Covers(g.perm, need) && (a.depth > 0 ==> g.inherit) {
      var r := PermRow(a.depth, a.createdBy, g.inherit, Some(g.perm));
      assert IsGrantRow(r, a, g.inherit, g.perm) && Counts(r, need);
      MatchingGrantsAre(db.userGrants, a, user, now, r);
      assert RowOf(db, user, now, a, r);
    }
    if g :| g in db.groupGrants && g.folder == a.id && Member(g.group, user) in db.members
            && g.window.Active(now) && Covers(g.perm, need) && (a.depth > 0 ==> g.inherit) {
      var r := PermRow(a.depth, a.createdBy, g.inherit, Some(g.perm));
      assert IsGrantRow(r, a, g.inherit, g.perm) && Counts(r, need);
      GroupGrantRowsAre(db, db.groupGrants, a, user, now, r);
      assert RowOf(db, user, now, a, r);
    }
  }

  lemma CountingRows(db: Db, user: Id, now: Instant, ancestors: seq<AncestorRow>, need: Perm)
    ensures (exists r :: r in PermRows(db, user, now, ancestors) && Counts(r, need)) <==>
            (exists a :: a in ancestors && Granted(db, user, now, a.id, need, a.depth > 0))
  {
    if r :| r in PermRows(db, user, now, ancestors) && Counts(r, need) {
      PermRowsAre(db, user, now, ancestors, r);
      var a :| a in ancestors && RowOf(db, user, now, a, r);
      CountingRowsOf(db, user, now, a, need);
    }
    if a :| a in ancestors && Granted(db, user, now, a.id, need, a.depth > 0) {
      CountingRowsOf(db, user, now, a, need);
      var r :| RowOf(db, user, now, a, r) && Counts(r, need);
      PermRowsAre(db, user, now, ancestors, r);
    }
  }

  // The outer join keeps a row for the folder itself, so its creator shows.
  lemma OwnerRows(db: Db, user: Id, now: Instant, ancestors: seq<AncestorRow>)
    ensures (exists r :: r in PermRows(db, user, now, ancestors) && r.depth == 0 && r.createdBy == user) <==>
            (exists a :: a in ancestors && a.depth == 0 && a.createdBy == user)
  {
    if r :| r in PermRows(db, user, now, ancestors) && r.depth == 0 && r.createdBy == user {
      PermRowsAre(db, user, now, ancestors, r);
      var a :| a in ancestors && RowOf(db, user, now, a, r);
      RowKeepsAncestor(db, user, now, a, r);
    }
    if a :| a in ancestors && a.depth == 0 && a.createdBy == user {
      var matching := MatchingGrants(db.userGrants, a, user, now);
      var r := if matching == [] then PermRow(a.depth, a.createdBy, false, None) else matching[0];
      assert RowOf(db, user, now, a, r);
      RowKeepsAncestor(db, user, now, a, r);
      PermRowsAre(db, user, now, ancestors, r);
    }
  }

  lemma RowKeepsAncestor(db: Db, user: Id, now: Instant, a: AncestorRow, r: PermRow)
    requires RowOf(db, user, now, a, r)
    ensures r.depth == a.depth && r.createdBy == a.createdBy
  {
    MatchingGrantsAre(db.userGrants, a, user, now, r);
    GroupGrantRowsAre(db, db.groupGrants, a, user, now, r);
  }

  // ---- main results on folders ----

  // The query's answer is the strongest of ownership, grants on the folder and
  // inheriting grants above it.
  lemma FolderQueryMeans(db: Db, user: Id, folder: Id, now: Instant)
    requires UniqueFolders(db.folders) && AcyclicAbove(db.folders, folder)
    ensures FolderQuery(db, user, folder, now) == FolderMeaning(db, user, folder, now)
  {
    AncestorsOnceAtTrueDepth(db.folders, folder);
    var ancestors := Ancestors(db.folders, FolderRows(db.folders, folder, 0), |db.folders|);
    assert WholeChain(db.folders, folder, ancestors);
    OwnerAggregate(db, user, folder, now, ancestors);
    NeedAggregate(db, user, folder, now, ancestors, Write);
    NeedAggregate(db, user, folder, now, ancestors, Read);
    if ancestors == [] {
      assert AncestorAt(db.folders, folder, 0).None?;
      assert forall d: nat :: AncestorAt(db.folders, folder, d).None?;
    }
  }

  lemma OwnerAggregate(db: Db, user: Id, folder: Id, now: Instant, ancestors: seq<AncestorRow>)
    requires WholeChain(db.folders, folder, ancestors)
    ensures BoolOr(OwnerColumn(PermRows(db, user, now, ancestors), user)).True? <==> OwnsFolder(db, user, folder)
  {
    OwnerRows(db, user, now, ancestors);
    OwnerColumnTrue(PermRows(db, user, now, ancestors), user);
    OwnerOnChain(db, user, folder, ancestors);
  }

  lemma NeedAggregate(db: Db, user: Id, folder: Id, now: Instant, ancestors: seq<AncestorRow>, need: Perm)
    requires WholeChain(db.folders, folder, ancestors)
    ensures BoolOr(NeedColumn(PermRows(db, user, now, ancestors), need)).True? <==>
            Reaches(db, user, now, folder, need)
  {
    CountingRows(db, user, now, ancestors, need);
    NeedColumnTrue(PermRows(db, user, now, ancestors), need);
    GrantOnChain(db, user, now, folder, ancestors, need);
  }

  ghost predicate WholeChain(folders: seq<Folder>, id: Id, rows: seq<AncestorRow>) {
    && (forall d: nat :: AncestorAt(folders, id, d).Some? <==> d < |rows|)
    && (forall d :: 0 <= d < |rows| ==> IsChainRow(folders, id, rows[d], d))
  }

  lemma OwnerOnChain(db: Db, user: Id, folder: Id, ancestors: seq<AncestorRow>)
    requires WholeChain(db.folders, folder, ancestors)
    ensures OwnsFolder(db, user, folder) <==>
            exists a :: a in ancestors && a.depth == 0 && a.createdBy == user
  {
    if OwnsFolder(db, user, folder) {
      assert AncestorAt(db.folders, folder, 0).Some?;
      assert IsChainRow(db.folders, folder, ancestors[0], 0);
      assert ancestors[0] in ancestors;
    }
    if a :| a in ancestors && a.depth == 0 && a.createdBy == user {
      var d :| 0 <= d < |ancestors| && ancestors[d] == a;
      assert IsChainRow(db.folders, folder, ancestors[d], d);
    }
  }

  lemma GrantOnChain(db: Db, user: Id, now: Instant, folder: Id, ancestors: seq<AncestorRow>, need: Perm)
    requires WholeChain(db.folders, folder, ancestors)
    ensures Reaches(db, user, now, folder, need) <==>
            exists a :: a in ancestors && Granted(db, user, now, a.id, need, a.depth > 0)
  {
    if Reaches(db, user, now, folder, need) {
      var d: nat :| AncestorAt(db.folders, folder, d).Some?
                    && Granted(db, user, now, AncestorAt(db.folders, folder, d).value.id, need, d > 0);
      assert IsChainRow(db.folders, folder, ancestors[d], d);
      assert ancestors[d] in ancestors;
    }
    if a :| a in ancestors && Granted(db, user, now, a.id, need, a.depth > 0) {
      var d :| 0 <= d < |ancestors| && ancestors[d] == a;
      assert IsChainRow(db.folders, folder, ancestors[d], d);
    }
  }

  // An inheriting grant of strength `need` reaches every folder below it.
  lemma InheritingGrantReaches(db: Db, user: Id, folder: Id, now: Instant, d: nat, need: Perm)
    requires UniqueFolders(db.folders) && AcyclicAbove(db.folders, folder)
    requires AncestorAt(db.folders, folder, d).Some?
    requires Granted(db, user, now, AncestorAt(db.folders, folder, d).value.id, need, true)
    ensures FromPerm(Some(need)).AtMost(FolderQuery(db, user, folder, now))
  {
    FolderQueryMeans(db, user, folder, now);
    assert Granted(db, user, now, AncestorAt(db.folders, folder, d).value.id, need, d > 0);
    assert Reaches(db, user, now, folder, need);
    if need.Write? {
      assert Reaches(db, user, now, folder, Write);
    }
  }

  // Same folders and parents, possibly other owners above the target.
  predicate SameTree(folders: seq<Folder>, folders': seq<Folder>, target: Id) {
    && |folders| == |folders'|
    && (forall i :: 0 <= i < |folders| ==>
          && folders'[i].id == folders[i].id && folders'[i].parent == folders[i].parent
          && (folders[i].id == target ==> folders'[i] == folders[i]))
  }

  predicate SameNode(f: Option<Folder>, f': Option<Folder>) {
    f.Some? == f'.Some? && (f.Some? ==> f'.value.id == f.value.id && f'.value.parent == f.value.parent)
  }

  lemma {:induction false} SameTreeFinds(folders: seq<Folder>, folders': seq<Folder>, target: Id, id: Id)
    requires SameTree(folders, folders', target)
    ensures SameNode(FindFolder(folders, id), FindFolder(folders', id))
    ensures id == target ==> FindFolder(folders, id) == FindFolder(folders', id)
  {
    if folders != [] {
      SameTreeFinds(folders[1..], folders'[1..], target, id);
    }
  }

  lemma {:induction false} SameTreeChain(folders: seq<Folder>, folders': seq<Folder>, target: Id, id: Id, d: nat)
    requires SameTree(folders, folders', target)
    ensures SameNode(AncestorAt(folders, id, d), AncestorAt(folders', id, d))
  {
    if d == 0 {
      SameTreeFinds(folders, folders', target, id);
    } else {
      SameTreeChain(folders, folders', target, id, d - 1);
      var below := AncestorAt(folders, id, d - 1);
      if below.Some? && below.value.parent.Some? {
        SameTreeFinds(folders, folders', target, below.value.parent.value);
      }
    }
  }

  // Ownership is not inherited: who owns the folders above a folder does not
  // change the answer for it.
  lemma OwnershipReachesOnlyItsFolder(db: Db, folders': seq<Folder>, user: Id, folder: Id, now: Instant)
    requires SameTree(db.folders, folders', folder)
    requires UniqueFolders(db.folders) && AcyclicAbove(db.folders, folder)
    ensures UniqueFolders(folders') && AcyclicAbove(folders', folder)
    ensures FolderQuery(db.(folders := folders'), user, folder, now) == FolderQuery(db, user, folder, now)
  {
    forall d: nat
      ensures SameNode(AncestorAt(db.folders, folder, d), AncestorAt(folders', folder, d))
    {
      SameTreeChain(db.folders, folders', folder, folder, d);
    }
    SameAcyclicAbove(db.folders, folders', folder);
    SameTreeMeaning(db, folders', user, folder, now);
    FolderQueryMeans(db, user, folder, now);
    FolderQueryMeans(db.(folders := folders'), user, folder, now);
  }

  // Nor for any item in it.
  lemma OwnershipReachesOnlyItsItems(db: Db, folders': seq<Folder>, user: Id, id: Id, now: Instant)
    requires FindItem(db.items, id).Some? && SameTree(db.folders, folders', FindItem(db.items, id).value.folder)
    requires UniqueFolders(db.folders) && AcyclicAbove(db.folders, FindItem(db.items, id).value.folder)
    ensures UniqueFolders(folders') && AcyclicAbove(folders', FindItem(db.items, id).value.folder)
    ensures ItemQuery(db.(folders := folders'), user, id, now) == ItemQuery(db, user, id, now)
  {
    var db' := db.(folders := folders');
    OwnershipReachesOnlyItsFolder(db, folders', user, FindItem(db.items, id).value.folder, now);
    SameGroupShares(db, db', db.groupShares, id, user, now);
  }

  lemma {:induction false} SameGroupShares(db: Db, db': Db, shares: seq<GroupShare>, item: Id, user: Id, now: Instant)
    requires db'.members == db.members
    ensures GroupSharePerms(db', shares, item, user, now) == GroupSharePerms(db, shares, item, user, now)
  {
    if shares != [] {
      SameGroupShares(db, db', shares[1..], item, user, now);
    }
  }

  // But the owner of a folder may write every item directly in it.
  lemma FolderOwnerWritesItems(db: Db, user: Id, id: Id, now: Instant)
    requires UniqueFolders(db.folders) && FindItem(db.items, id).Some?
    requires AcyclicAbove(db.folders, FindItem(db.items, id).value.folder)
    requires OwnsFolder(db, user, FindItem(db.items, id).value.folder)
    ensures ItemQuery(db, user, id, now) == WriteAccess
  {
    FolderQueryMeans(db, user, FindItem(db.items, id).value.folder, now);
  }

  lemma SameAcyclicAbove(folders: seq<Folder>, folders': seq<Folder>, id: Id)
    requires forall d: nat :: SameNode(AncestorAt(folders, id, d), AncestorAt(folders', id, d))
    requires AcyclicAbove(folders, id)
    ensures AcyclicAbove(folders', id)
  {
  }

  lemma SameTreeMeaning(db: Db, folders': seq<Folder>, user: Id, folder: Id, now: Instant)
    requires SameTree(db.folders, folders', folder)
    requires forall d: nat :: SameNode(AncestorAt(db.folders, folder, d), AncestorAt(folders', folder, d))
    ensures FolderMeaning(db.(folders := folders'), user, folder, now) == FolderMeaning(db, user, folder, now)
  {
    SameTreeFinds(db.folders, folders', folder, folder);
    SameReach(db, folders', user, folder, now, Read);
    SameReach(db, folders', user, folder, now, Write);
  }

  lemma SameReach(db: Db, folders': seq<Folder>, user: Id, folder: Id, now: Instant, need: Perm)
    requires forall d: nat :: SameNode(AncestorAt(db.folders, folder, d), AncestorAt(folders', folder, d))
    ensures Reaches(db.(folders := folders'), user, now, folder, need) <==> Reaches(db, user, now, folder, need)
  {
  }

  // ---- main results on items ----

  ghost predicate SharedWith(db: Db, user: Id, now: Instant, item: Id, perm: Perm) {
    exists s :: s in db.shares && s.item == item && s.user == user && s.window.Active(now) && s.perm == perm
  }

  ghost predicate GroupSharedWith(db: Db, user: Id, now: Instant, item: Id, perm: Perm) {
    exists s :: s in db.groupShares && s.item == item && Member(s.group, user) in db.members
                && s.window.Active(now) && s.perm == perm
  }

  // Some source gives at least `need` on the item.
  ghost predicate ItemSource(db: Db, user: Id, now: Instant, item: Item, need: Perm) {
    || item.createdBy == user
    || SharedWith(db, user, now, item.id, Write) || GroupSharedWith(db, user, now, item.id, Write)
    || FolderMeaning(db, user, item.folder, now).WriteAccess?
    || (need.Read? && (|| SharedWith(db, user, now, item.id, Read)
                       || GroupSharedWith(db, user, now, item.id, Read)
                       || FolderMeaning(db, user, item.folder, now).ReadAccess?))
  }

  ghost function ItemMeaning(db: Db, user: Id, id: Id, now: Instant): Access {
    var item := FindItem(db.items, id);
    if item.None? then NoAccess
    else if ItemSource(db, user, now, item.value, Write) then WriteAccess
    else if ItemSource(db, user, now, item.value, Read) then ReadAccess
    else NoAccess
  }

  lemma {:induction false} FirstShareIs(shares: seq<Share>, item: Id, user: Id, now: Instant)
    requires UniqueShares(shares)
    ensures forall perm: Perm :: FirstShare(shares, item, user, now) == Some(perm) <==>
              exists s :: s in shares && s.item == item && s.user == user && s.window.Active(now) && s.perm == perm
  {
    if shares != [] {
      FirstShareIs(shares[1..], item, user, now);
      assert shares == [shares[0]] + shares[1..];
      forall s | s in shares[1..] && s.item == shares[0].item ensures s.user != shares[0].user {
        var i :| 1 <= i < |shares| && shares[i] == s;
      }
    }
  }

  lemma {:induction false} MemberPermsAre(members: seq<Member>, g: GroupShare, user: Id, perm: Perm)
    ensures perm in MemberPerms(members, g, user) <==> Member(g.group, user) in members && perm == g.perm
  {
    if members != [] {
      MemberPermsAre(members[1..], g, user, perm);
      assert members == [members[0]] + members[1..];
    }
  }

  lemma {:induction false} GroupSharePermsAre(db: Db, shares: seq<GroupShare>, item: Id, user: Id, now: Instant, perm: Perm)
    ensures perm in GroupSharePerms(db, shares, item, user, now) <==>
            exists s :: s in shares && s.item == item && Member(s.group, user) in db.members
                        && s.window.Active(now) && s.perm == perm
  {
    if shares != [] {
      GroupSharePermsAre(db, shares[1..], item, user, now, perm);
      MemberPermsAre(db.members, shares[0], user, perm);
      assert shares == [shares[0]] + shares[1..];
    }
  }

  lemma DirectShareMeans(db: Db, user: Id, id: Id, now: Instant)
    requires UniqueShares(db.shares)
    ensures forall perm: Perm :: SharedWith(db, user, now, id, perm) <==>
                                 FirstShare(db.shares, id, user, now) == Some(perm)
  {
    FirstShareIs(db.shares, id, user, now);
  }

  lemma GroupShareMeans(db: Db, user: Id, id: Id, now: Instant)
    ensures forall perm: Perm :: GroupSharedWith(db, user, now, id, perm) <==>
                                 perm in GroupSharePerms(db, db.groupShares, id, user, now)
  {
    forall perm: Perm
      ensures GroupSharedWith(db, user, now, id, perm) <==>
              perm in GroupSharePerms(db, db.groupShares, id, user, now)
    {
      GroupSharePermsAre(db, db.groupShares, id, user, now, perm);
    }
  }

  // With its early exits the resolver still returns the strongest source.
  lemma ItemQueryMeans(db: Db, user: Id, id: Id, now: Instant)
    requires UniqueFolders(db.folders) && UniqueShares(db.shares)
    requires var item := FindItem(db.items, id);
             item.Some? ==> AcyclicAbove(db.folders, item.value.folder)
    ensures ItemQuery(db, user, id, now) == ItemMeaning(db, user, id, now)
  {
    var item := FindItem(db.items, id);
    if item.Some? {
      FolderQueryMeans(db, user, item.value.folder, now);
      DirectShareMeans(db, user, id, now);
      GroupShareMeans(db, user, id, now);
    }
  }

  lemma ResolversAnswer(db: Db, user: Id, folder: Id, id: Id, now: Instant)
    requires UniqueFolders(db.folders) && UniqueShares(db.shares)
    requires AcyclicAbove(db.folders, folder)
    requires var item := FindItem(db.items, id);
             item.Some? ==> AcyclicAbove(db.folders, item.value.folder)
    ensures ResolveFolder(db, user, folder, now)
            == if user == "" || folder == "" then Err(EmptyId) else Ok(FolderMeaning(db, user, folder, now))
    ensures ResolveItem(db, user, id, now)
            == if user == "" || id == "" then Err(EmptyId) else Ok(ItemMeaning(db, user, id, now))
  {
    FolderQueryMeans(db, user, folder, now);
    ItemQueryMeans(db, user, id, now);
  }

  // ---- monotonicity ----

  // Every row active in `db` at `now` is covered by one active in `db'` at `now'`.
  ghost predicate MoreGrants(db: Db, now: Instant, db': Db, now': Instant) {
    && db'.folders == db.folders && db'.items == db.items
    && (forall m :: m in db.members ==> m in db'.members)
    && (forall g :: g in db.userGrants && g.window.Active(now) ==>
          exists g' :: g' in db'.userGrants && g'.window.Active(now') && UserGrantCovers(g', g))
    && (forall g :: g in db.groupGrants && g.window.Active(now) ==>
          exists g' :: g' in db'.groupGrants && g'.window.Active(now') && GroupGrantCovers(g', g))
    && (forall s :: s in db.shares && s.window.Active(now) ==>
          exists s' :: s' in db'.shares && s'.window.Active(now') && ShareCovers(s', s))
    && (forall s :: s in db.groupShares && s.window.Active(now) ==>
          exists s' :: s' in db'.groupShares && s'.window.Active(now') && GroupShareCovers(s', s))
  }

  predicate UserGrantCovers(g': UserGrant, g: UserGrant) {
    g'.folder == g.folder && g'.user == g.user && Covers(g'.perm, g.perm) && (g.inherit ==> g'.inherit)
  }

  predicate GroupGrantCovers(g': GroupGrant, g: GroupGrant) {
    g'.folder == g.folder && g'.group == g.group && Covers(g'.perm, g.perm) && (g.inherit ==> g'.inherit)
  }

  predicate ShareCovers(s': Share, s: Share) {
    s'.item == s.item && s'.user == s.user && Covers(s'.perm, s.perm)
  }

  predicate GroupShareCovers(s': GroupShare, s: GroupShare) {
    s'.item == s.item && s'.group == s.group && Covers(s'.perm, s.perm)
  }

  lemma MoreFolderAccess(db: Db, now: Instant, db': Db, now': Instant, user: Id, folder: Id)
    requires MoreGrants(db, now, db', now')
    ensures FolderMeaning(db, user, folder, now).AtMost(FolderMeaning(db', user, folder, now'))
  {
    forall need: Perm | Reaches(db, user, now, folder, need) ensures Reaches(db', user, now', folder, need) {
      var d: nat :| AncestorAt(db.folders, folder, d).Some?
                    && Granted(db, user, now, AncestorAt(db.folders, folder, d).value.id, need, d > 0);
      MoreGranted(db, now, db', now', user, AncestorAt(db.folders, folder, d).value.id, need, d > 0);
    }
  }

  lemma MoreGranted(db: Db, now: Instant, db': Db, now': Instant, user: Id, folder: Id, need: Perm, inherited: bool)
    requires MoreGrants(db, now, db', now') && Granted(db, user, now, folder, need, inherited)
    ensures Granted(db', user, now', folder, need, inherited)
  {
  }

  lemma MoreShares(db: Db, now: Instant, db': Db, now': Instant, user: Id, item: Id, perm: Perm)
    requires MoreGrants(db, now, db', now')
    ensures SharedWith(db, user, now, item, perm) ==>
              SharedWith(db', user, now', item, perm) || SharedWith(db', user, now', item, Write)
    ensures GroupSharedWith(db, user, now, item, perm) ==>
              GroupSharedWith(db', user, now', item, perm) || GroupSharedWith(db', user, now', item, Write)
  {
  }

  // More or stronger grants and more memberships never lower an answer; read
  // from right to left, revocation and expiry never raise one.
  lemma ItemAccessMonotone(db: Db, now: Instant, db': Db, now': Instant, user: Id, id: Id)
    requires MoreGrants(db, now, db', now')
    requires UniqueFolders(db.folders) && UniqueShares(db.shares) && UniqueShares(db'.shares)
    requires var item := FindItem(db.items, id);
             item.Some? ==> AcyclicAbove(db.folders, item.value.folder)
    ensures ItemQuery(db, user, id, now).AtMost(ItemQuery(db', user, id, now'))
  {
    ItemQueryMeans(db, user, id, now);
    ItemQueryMeans(db', user, id, now');
    var item := FindItem(db.items, id);
    if item.Some? {
      MoreFolderAccess(db, now, db', now', user, item.value.folder);
      MoreShares(db, now, db', now', user, id, Read);
      MoreShares(db, now, db', now', user, id, Write);
    }
  }

  // What an access right can rest on, by its row.
  datatype Right = UserGrantRow(i: nat) | GroupGrantRow(i: nat) | ShareRow(i: nat) | GroupShareRow(i: nat)
                 | MemberRow(i: nat)

  function Revoked(w: Window): Window { w.(revoked := true) }

  // The row stamped as revoked; a membership row is deleted.
  function Revoke(db: Db, right: Right): Db {
    match right
    case UserGrantRow(i) =>
      if i < |db.userGrants|
      then db.(userGrants := db.userGrants[i := db.userGrants[i].(window := Revoked(db.userGrants[i].window))])
      else db
    case GroupGrantRow(i) =>
      if i < |db.groupGrants|
      then db.(groupGrants := db.groupGrants[i := db.groupGrants[i].(window := Revoked(db.groupGrants[i].window))])
      else db
    case ShareRow(i) =>
      if i < |db.shares|
      then db.(shares := db.shares[i := db.shares[i].(window := Revoked(db.shares[i].window))]) else db
    case GroupShareRow(i) =>
      if i < |db.groupShares|
      then db.(groupShares := db.groupShares[i := db.groupShares[i].(window := Revoked(db.groupShares[i].window))])
      else db
    case MemberRow(i) =>
      if i < |db.members| then db.(members := db.members[..i] + db.members[i + 1..]) else db
  }

  // No window opens between the two times.
  predicate NothingStarts(db: Db, now: Instant, later: Instant) {
    && (forall g :: g in db.userGrants && g.window.Active(later) ==> g.window.Active(now))
    && (forall g :: g in db.groupGrants && g.window.Active(later) ==> g.window.Active(now))
    && (forall s :: s in db.shares && s.window.Active(later) ==> s.window.Active(now))
    && (forall s :: s in db.groupShares && s.window.Active(later) ==> s.window.Active(now))
  }

  predicate OpenedBy(w: Window, now: Instant) {
    w.from.None? || w.from.value <= now
  }

  // Time alone opens no window whose start has passed.
  lemma TimeOnlyCloses(w: Window, now: Instant, later: Instant)
    requires now <= later && OpenedBy(w, now)
    ensures w.Active(later) ==> w.Active(now)
  {
  }

  lemma RevokedIsFewer(db: Db, right: Right, now: Instant, later: Instant)
    requires NothingStarts(db, now, later)
    ensures MoreGrants(Revoke(db, right), later, db, now)
  {
    var db' := Revoke(db, right);
    assert forall g :: g in db'.userGrants && g.window.Active(later) ==> g in db.userGrants;
    assert forall g :: g in db'.groupGrants && g.window.Active(later) ==> g in db.groupGrants;
    assert forall s :: s in db'.shares && s.window.Active(later) ==> s in db.shares;
    assert forall s :: s in db'.groupShares && s.window.Active(later) ==> s in db.groupShares;
  }

  // Revoking a right of any of the five kinds, time passing or not, never
  // raises an item answer.
  lemma RevocationNeverRaises(db: Db, right: Right, now: Instant, later: Instant, user: Id, id: Id)
    requires NothingStarts(db, now, later)
    requires UniqueFolders(db.folders) && UniqueShares(db.shares)
    requires var item := FindItem(db.items, id);
             item.Some? ==> AcyclicAbove(db.folders, item.value.folder)
    ensures ItemQuery(Revoke(db, right), user, id, later).AtMost(ItemQuery(db, user, id, now))
  {
    RevokedIsFewer(db, right, now, later);
    assert UniqueShares(Revoke(db, right).shares);
    ItemAccessMonotone(Revoke(db, right), later, db, now, user, id);
  }

  // ---- rows that give nothing, and rows that give what they say ----

  // Revoked, run out, or not yet begun.
  predicate OutOfForce(w: Window, now: Instant) {
    || w.revoked
    || (w.until.Some? && w.until.value <= now)
    || (w.from.Some? && now < w.from.value)
  }

  predicate InForce(w: Window, now: Instant) {
    && !w.revoked
    && (w.until.None? || now < w.until.value)
    && (w.from.None? || w.from.value <= now)
  }

  function RightWindow(db: Db, right: Right): Option<Window> {
    match right
    case UserGrantRow(i) => if i < |db.userGrants| then Some(db.userGrants[i].window) else None
    case GroupGrantRow(i) => if i < |db.groupGrants| then Some(db.groupGrants[i].window) else None
    case ShareRow(i) => if i < |db.shares| then Some(db.shares[i].window) else None
    case GroupShareRow(i) => if i < |db.groupShares| then Some(db.groupShares[i].window) else None
    case MemberRow(_) => None
  }

  function WithoutAt<T>(rows: seq<T>, i: nat): seq<T> {
    if i < |rows| then rows[..i] + rows[i + 1..] else rows
  }

  function Without(db: Db, right: Right): Db {
    match right
    case UserGrantRow(i) => db.(userGrants := WithoutAt(db.userGrants, i))
    case GroupGrantRow(i) => db.(groupGrants := WithoutAt(db.groupGrants, i))
    case ShareRow(i) => db.(shares := WithoutAt(db.shares, i))
    case GroupShareRow(i) => db.(groupShares := WithoutAt(db.groupShares, i))
    case MemberRow(i) => db.(members := WithoutAt(db.members, i))
  }

  lemma WithoutRows<T>(rows: seq<T>, i: nat, x: T)
    requires i < |rows|
    ensures x in WithoutAt(rows, i) ==> x in rows
    ensures x in rows && x != rows[i] ==> x in WithoutAt(rows, i)
  {
    if x in rows && x != rows[i] {
      var j :| 0 <= j < |rows| && rows[j] == x;
      assert WithoutAt(rows, i)[if j < i then j else j - 1] == x;
    }
  }

  // The same rows are active.
  predicate SameActive(db: Db, db': Db, now: Instant) {
    && db'.folders == db.folders && db'.items == db.items && db'.members == db.members
    && (forall g :: g in db.userGrants && g.window.Active(now) ==> g in db'.userGrants)
    && (forall g :: g in db'.userGrants && g.window.Active(now) ==> g in db.userGrants)
    && (forall g :: g in db.groupGrants && g.window.Active(now) ==> g in db'.groupGrants)
    && (forall g :: g in db'.groupGrants && g.window.Active(now) ==> g in db.groupGrants)
    && (forall s :: s in db.shares && s.window.Active(now) ==> s in db'.shares)
    && (forall s :: s in db'.shares && s.window.Active(now) ==> s in db.shares)
    && (forall s :: s in db.groupShares && s.window.Active(now) ==> s in db'.groupShares)
    && (forall s :: s in db'.groupShares && s.window.Active(now) ==> s in db.groupShares)
  }

  lemma SameActiveIsMore(db: Db, db': Db, now: Instant)
    requires SameActive(db, db', now)
    ensures MoreGrants(db, now, db', now)
  {
  }

  // Then every answer is the same.
  lemma SameActiveSameAnswers(db: Db, db': Db, now: Instant, user: Id, folder: Id, id: Id)
    requires SameActive(db, db', now) && UniqueFolders(db.folders)
    requires UniqueShares(db.shares) && UniqueShares(db'.shares)
    requires AcyclicAbove(db.folders, folder)
    requires var item := FindItem(db.items, id);
             item.Some? ==> AcyclicAbove(db.folders, item.value.folder)
    ensures FolderQuery(db', user, folder, now) == FolderQuery(db, user, folder, now)
    ensures ItemQuery(db', user, id, now) == ItemQuery(db, user, id, now)
  {
    SameActiveIsMore(db, db', now);
    SameActiveIsMore(db', db, now);
    MoreFolderAccess(db, now, db', now, user, folder);
    MoreFolderAccess(db', now, db, now, user, folder);
    FolderQueryMeans(db, user, folder, now);
    FolderQueryMeans(db', user, folder, now);
    ItemAccessMonotone(db, now, db', now, user, id);
    ItemAccessMonotone(db', now, db, now, user, id);
  }

  lemma OutOfForceSameActive(db: Db, right: Right, now: Instant)
    requires RightWindow(db, right).Some? && OutOfForce(RightWindow(db, right).value, now)
    ensures SameActive(db, Without(db, right), now)
  {
    match right
    case UserGrantRow(i) => forall g { WithoutRows(db.userGrants, i, g); }
    case GroupGrantRow(i) => forall g { WithoutRows(db.groupGrants, i, g); }
    case ShareRow(i) => forall s { WithoutRows(db.shares, i, s); }
    case GroupShareRow(i) => forall s { WithoutRows(db.groupShares, i, s); }
    case MemberRow(_) =>
  }

  lemma WithoutKeepsUnique(db: Db, right: Right)
    requires UniqueShares(db.shares)
    ensures UniqueShares(Without(db, right).shares)
  {
  }

  // A row of any kind that is revoked, run out or not yet begun gives nothing:
  // every folder and item answer is as if it were not there.
  lemma OutOfForceGivesNothing(db: Db, right: Right, now: Instant, user: Id, folder: Id, id: Id)
    requires RightWindow(db, right).Some? && OutOfForce(RightWindow(db, right).value, now)
    requires UniqueFolders(db.folders) && UniqueShares(db.shares) && AcyclicAbove(db.folders, folder)
    requires var item := FindItem(db.items, id);
             item.Some? ==> AcyclicAbove(db.folders, item.value.folder)
    ensures FolderQuery(Without(db, right), user, folder, now) == FolderQuery(db, user, folder, now)
    ensures ItemQuery(Without(db, right), user, id, now) == ItemQuery(db, user, id, now)
  {
    OutOfForceSameActive(db, right, now);
    WithoutKeepsUnique(db, right);
    SameActiveSameAnswers(db, Without(db, right), now, user, folder, id);
  }

  lemma RevokeThenWithout(db: Db, right: Right)
    ensures right.MemberRow? ==> Revoke(db, right) == Without(db, right)
    ensures !right.MemberRow? ==> Without(Revoke(db, right), right) == Without(db, right)
    ensures RightWindow(db, right).Some? ==>
              RightWindow(Revoke(db, right), right).Some? && RightWindow(Revoke(db, right), right).value.revoked
    ensures RightWindow(db, right).None? && !right.MemberRow? ==> Revoke(db, right) == Without(db, right)
  {
  }

  // Revoking a right of any of the five kinds is the same, to every answer, as
  // deleting its row.
  lemma RevokedIsDeleted(db: Db, right: Right, now: Instant, user: Id, folder: Id, id: Id)
    requires UniqueFolders(db.folders) && UniqueShares(db.shares) && AcyclicAbove(db.folders, folder)
    requires var item := FindItem(db.items, id);
             item.Some? ==> AcyclicAbove(db.folders, item.value.folder)
    ensures FolderQuery(Revoke(db, right), user, folder, now) == FolderQuery(Without(db, right), user, folder, now)
    ensures ItemQuery(Revoke(db, right), user, id, now) == ItemQuery(Without(db, right), user, id, now)
  {
    RevokeThenWithout(db, right);
    if RightWindow(db, right).Some? {
      assert UniqueShares(Revoke(db, right).shares);
      OutOfForceGivesNothing(Revoke(db, right), right, now, user, folder, id);
    }
  }

  // A row in force gives its strength: a folder grant on its folder, directly or
  // by a group, ...
  lemma FolderGrantCounts(db: Db, user: Id, now: Instant, folder: Id, perm: Perm, window: Window, i: nat)
    requires UniqueFolders(db.folders) && AcyclicAbove(db.folders, folder) && FindFolder(db.folders, folder).Some?
    requires InForce(window, now)
    requires || (&& i < |db.userGrants| && db.userGrants[i].folder == folder && db.userGrants[i].user == user
                 && db.userGrants[i].perm == perm && db.userGrants[i].window == window)
             || (&& i < |db.groupGrants| && db.groupGrants[i].folder == folder
                 && Member(db.groupGrants[i].group, user) in db.members
                 && db.groupGrants[i].perm == perm && db.groupGrants[i].window == window)
    ensures FolderQuery(db, user, folder, now) == WriteAccess
            || (perm == Read && FolderQuery(db, user, folder, now) == ReadAccess)
  {
    FolderQueryMeans(db, user, folder, now);
    assert Granted(db, user, now, folder, perm, false);
    assert AncestorAt(db.folders, folder, 0).value.id == folder;
    assert Reaches(db, user, now, folder, perm);
  }

  // ... and a share on its item.
  lemma ShareCounts(db: Db, user: Id, now: Instant, id: Id, perm: Perm, window: Window, i: nat)
    requires UniqueFolders(db.folders) && UniqueShares(db.shares) && FindItem(db.items, id).Some?
    requires AcyclicAbove(db.folders, FindItem(db.items, id).value.folder)
    requires InForce(window, now)
    requires || (&& i < |db.shares| && db.shares[i].item == id && db.shares[i].user == user
                 && db.shares[i].perm == perm && db.shares[i].window == window)
             || (&& i < |db.groupShares| && db.groupShares[i].item == id
                 && Member(db.groupShares[i].group, user) in db.members
                 && db.groupShares[i].perm == perm && db.groupShares[i].window == window)
    ensures ItemQuery(db, user, id, now) == WriteAccess
            || (perm == Read && ItemQuery(db, user, id, now) == ReadAccess)
  {
    ItemQueryMeans(db, user, id, now);
    assert SharedWith(db, user, now, id, perm) || GroupSharedWith(db, user, now, id, perm);
  }

  // With nothing in force and nothing owned there is no access.
  lemma NothingGivesNothing(db: Db, user: Id, folder: Id, now: Instant)
    requires UniqueFolders(db.folders) && AcyclicAbove(db.folders, folder)
    requires FindFolder(db.folders, folder).Some? ==> FindFolder(db.folders, folder).value.createdBy != user
    requires forall g :: g in db.userGrants && g.user == user ==> OutOfForce(g.window, now)
    requires forall g :: g in db.groupGrants && Member(g.group, user) in db.members ==> OutOfForce(g.window, now)
    ensures FolderQuery(db, user, folder, now) == NoAccess
  {
    FolderQueryMeans(db, user, folder, now);
    assert forall id: Id, need: Perm, inherited: bool :: !Granted(db, user, now, id, need, inherited);
  }

  // An inheriting folder grant reaches every item in every folder below it.
  lemma InheritingGrantReachesItems(db: Db, user: Id, id: Id, now: Instant, d: nat, need: Perm)
    requires UniqueFolders(db.folders) && UniqueShares(db.shares) && FindItem(db.items, id).Some?
    requires AcyclicAbove(db.folders, FindItem(db.items, id).value.folder)
    requires AncestorAt(db.folders, FindItem(db.items, id).value.folder, d).Some?
    requires Granted(db, user, now, AncestorAt(db.folders, FindItem(db.items, id).value.folder, d).value.id, need, true)
    ensures FromPerm(Some(need)).AtMost(ItemQuery(db, user, id, now))
  {
    var folder := FindItem(db.items, id).value.folder;
    InheritingGrantReaches(db, user, folder, now, d, need);
    FolderQueryMeans(db, user, folder, now);
    ItemQueryMeans(db, user, id, now);
  }
}
