// Granting access (server/internal/httpapi/folder_permissions.go, item_shares.go,
// group_handlers.go): an upsert, which replaces the row of the same folder or
// item and the same user or group, whatever it gave.
module Grants {
  import opened Wrappers
  import opened FolderTree
  import opened Permissions

  type Key = (Id, Id)

  predicate UniqueKeys<T>(rows: seq<T>, key: T -> Key) {
    forall i, j :: 0 <= i < j < |rows| ==> key(rows[i]) != key(rows[j])
  }

  // INSERT ... ON CONFLICT (key) DO UPDATE
  function Upserted<T>(rows: seq<T>, key: T -> Key, row: T): seq<T> {
    if rows == [] then [row]
    else if key(rows[0]) == key(row) then [row] + rows[1..]
    else [rows[0]] + Upserted(rows[1..], key, row)
  }

  lemma {:induction false} UpsertedRows<T>(rows: seq<T>, key: T -> Key, row: T, x: T)
    requires UniqueKeys(rows, key)
    ensures x in Upserted(rows, key, row) <==> x == row || (x in rows && key(x) != key(row))
  {
    if rows != [] {
      assert rows == [rows[0]] + rows[1..];
      if key(rows[0]) == key(row) {
        forall y | y in rows[1..] ensures key(y) != key(row) {
          var i :| 1 <= i < |rows| && rows[i] == y;
        }
      } else {
        UpsertedRows(rows[1..], key, row, x);
      }
    }
  }

  lemma {:induction false} UpsertedKeys<T>(rows: seq<T>, key: T -> Key, row: T)
    requires UniqueKeys(rows, key)
    ensures UniqueKeys(Upserted(rows, key, row), key)
  {
    if rows != [] && key(rows[0]) != key(row) {
      var rest := Upserted(rows[1..], key, row);
      UpsertedKeys(rows[1..], key, row);
      forall i | 0 <= i < |rest| ensures key(rest[i]) != key(rows[0]) {
        UpsertedRows(rows[1..], key, row, rest[i]);
        if rest[i] != row {
          var j :| 1 <= j < |rows| && rows[j] == rest[i];
        }
      }
    }
  }

  // ---- the four kinds of grant, revoked_at being NULL in the new row ----

  datatype Grant =
    | ToUser(userGrant: UserGrant)
    | ToGroup(groupGrant: GroupGrant)
    | ItemToUser(share: Share)
    | ItemToGroup(groupShare: GroupShare)

  function UserGrantKey(g: UserGrant): Key { (g.folder, g.user) }
  function GroupGrantKey(g: GroupGrant): Key { (g.folder, g.group) }
  function ShareKey(s: Share): Key { (s.item, s.user) }
  function GroupShareKey(s: GroupShare): Key { (s.item, s.group) }

  predicate UniqueGrants(db: Db) {
    && UniqueKeys(db.userGrants, UserGrantKey) && UniqueKeys(db.groupGrants, GroupGrantKey)
    && UniqueKeys(db.shares, ShareKey) && UniqueKeys(db.groupShares, GroupShareKey)
  }

  // The upsert of a group's folder grant names no window: a new row has none,
  // and a row that was there keeps its own.
  function WindowOf(rows: seq<GroupGrant>, key: Key): Window {
    if rows == [] then Window(false, None, None)
    else if GroupGrantKey(rows[0]) == key then rows[0].window.(revoked := false)
    else WindowOf(rows[1..], key)
  }

  function AsStored(db: Db, g: GroupGrant): GroupGrant {
    g.(window := WindowOf(db.groupGrants, GroupGrantKey(g)))
  }

  function Give(db: Db, grant: Grant): Db {
    match grant
    case ToUser(g) => db.(userGrants := Upserted(db.userGrants, UserGrantKey, g))
    case ToGroup(g) => db.(groupGrants := Upserted(db.groupGrants, GroupGrantKey, AsStored(db, g)))
    case ItemToUser(s) => db.(shares := Upserted(db.shares, ShareKey, s))
    case ItemToGroup(s) => db.(groupShares := Upserted(db.groupShares, GroupShareKey, s))
  }

  lemma GiveKeepsUnique(db: Db, grant: Grant)
    requires UniqueGrants(db)
    ensures UniqueGrants(Give(db, grant))
  {
    match grant
    case ToUser(g) => UpsertedKeys(db.userGrants, UserGrantKey, g);
    case ToGroup(g) => UpsertedKeys(db.groupGrants, GroupGrantKey, AsStored(db, g));
    case ItemToUser(s) => UpsertedKeys(db.shares, ShareKey, s);
    case ItemToGroup(s) => UpsertedKeys(db.groupShares, GroupShareKey, s);
  }

  // The new row gives at least what the active row it replaces gives now.
  predicate CoversReplaced(db: Db, grant: Grant, now: Instant) {
    match grant
    case ToUser(g) =>
      forall o :: o in db.userGrants && UserGrantKey(o) == UserGrantKey(g) && o.window.Active(now) ==>
        g.window.Active(now) && UserGrantCovers(g, o)
    case ToGroup(g) =>
      forall o :: o in db.groupGrants && GroupGrantKey(o) == GroupGrantKey(g) && o.window.Active(now) ==>
        GroupGrantCovers(g, o)
    case ItemToUser(s) =>
      forall o :: o in db.shares && ShareKey(o) == ShareKey(s) && o.window.Active(now) ==>
        s.window.Active(now) && ShareCovers(s, o)
    case ItemToGroup(s) =>
      forall o :: o in db.groupShares && GroupShareKey(o) == GroupShareKey(s) && o.window.Active(now) ==>
        s.window.Active(now) && GroupShareCovers(s, o)
  }

  lemma UserGrantMoreIff(db: Db, g: UserGrant, now: Instant)
    requires UniqueGrants(db)
    ensures MoreGrants(db, now, Give(db, ToUser(g)), now) <==> CoversReplaced(db, ToUser(g), now)
  {
    forall x: UserGrant
      ensures x in Upserted(db.userGrants, UserGrantKey, g) <==>
              x == g || (x in db.userGrants && UserGrantKey(x) != UserGrantKey(g))
    {
      UpsertedRows(db.userGrants, UserGrantKey, g, x);
    }
  }

  lemma {:induction false} WindowOfRow(rows: seq<GroupGrant>, o: GroupGrant)
    requires UniqueKeys(rows, GroupGrantKey) && o in rows
    ensures WindowOf(rows, GroupGrantKey(o)) == o.window.(revoked := false)
  {
    if rows[0] != o {
      var i :| 1 <= i < |rows| && rows[i] == o;
      assert rows[1..][i - 1] == o;
      WindowOfRow(rows[1..], o);
    }
  }

  lemma GroupGrantMoreIff(db: Db, g: GroupGrant, now: Instant)
    requires UniqueGrants(db)
    ensures MoreGrants(db, now, Give(db, ToGroup(g)), now) <==> CoversReplaced(db, ToGroup(g), now)
  {
    var stored := AsStored(db, g);
    forall x: GroupGrant
      ensures x in Upserted(db.groupGrants, GroupGrantKey, stored) <==>
              x == stored || (x in db.groupGrants && GroupGrantKey(x) != GroupGrantKey(stored))
    {
      UpsertedRows(db.groupGrants, GroupGrantKey, stored, x);
    }
    forall o | o in db.groupGrants && GroupGrantKey(o) == GroupGrantKey(g) && o.window.Active(now)
      ensures stored.window.Active(now)
    {
      WindowOfRow(db.groupGrants, o);
    }
  }

  // A group's folder grant given again is active exactly when the row that was
  // there would be but for its revocation: past its window it gives nothing.
  lemma RegrantIsActiveIff(db: Db, g: GroupGrant, o: GroupGrant, now: Instant)
    requires UniqueGrants(db) && o in db.groupGrants && GroupGrantKey(o) == GroupGrantKey(g)
    ensures AsStored(db, g) in Give(db, ToGroup(g)).groupGrants
    ensures AsStored(db, g).window.Active(now) <==> o.window.(revoked := false).Active(now)
  {
    WindowOfRow(db.groupGrants, o);
    UpsertedRows(db.groupGrants, GroupGrantKey, AsStored(db, g), AsStored(db, g));
  }

  lemma ShareMoreIff(db: Db, s: Share, now: Instant)
    requires UniqueGrants(db)
    ensures MoreGrants(db, now, Give(db, ItemToUser(s)), now) <==> CoversReplaced(db, ItemToUser(s), now)
  {
    forall x: Share
      ensures x in Upserted(db.shares, ShareKey, s) <==> x == s || (x in db.shares && ShareKey(x) != ShareKey(s))
    {
      UpsertedRows(db.shares, ShareKey, s, x);
    }
  }

  lemma GroupShareMoreIff(db: Db, s: GroupShare, now: Instant)
    requires UniqueGrants(db)
    ensures MoreGrants(db, now, Give(db, ItemToGroup(s)), now) <==> CoversReplaced(db, ItemToGroup(s), now)
  {
    forall x: GroupShare
      ensures x in Upserted(db.groupShares, GroupShareKey, s) <==>
              x == s || (x in db.groupShares && GroupShareKey(x) != GroupShareKey(s))
    {
      UpsertedRows(db.groupShares, GroupShareKey, s, x);
    }
  }

  // Row by row, a grant of any kind leaves everybody at least as many rights
  // exactly when it covers the active row that it replaces.
  lemma GiveIsMoreIff(db: Db, grant: Grant, now: Instant)
    requires UniqueGrants(db)
    ensures MoreGrants(db, now, Give(db, grant), now) <==> CoversReplaced(db, grant, now)
  {
    match grant
    case ToUser(g) => UserGrantMoreIff(db, g, now);
    case ToGroup(g) => GroupGrantMoreIff(db, g, now);
    case ItemToUser(s) => ShareMoreIff(db, s, now);
    case ItemToGroup(s) => GroupShareMoreIff(db, s, now);
  }

  // Then it lowers no item answer.
  lemma CoveringGrantNeverLowers(db: Db, grant: Grant, now: Instant, user: Id, id: Id)
    requires UniqueGrants(db) && CoversReplaced(db, grant, now) && UniqueFolders(db.folders)
    requires var item := FindItem(db.items, id);
             item.Some? ==> AcyclicAbove(db.folders, item.value.folder)
    ensures ItemQuery(db, user, id, now).AtMost(ItemQuery(Give(db, grant), user, id, now))
  {
    GiveIsMoreIff(db, grant, now);
    GiveKeepsUnique(db, grant);
    SharesUnique(db);
    SharesUnique(Give(db, grant));
    ItemAccessMonotone(db, now, Give(db, grant), now, user, id);
  }

  lemma SharesUnique(db: Db)
    requires UniqueGrants(db)
    ensures UniqueShares(db.shares)
  {
    forall i, j | 0 <= i < j < |db.shares|
      ensures db.shares[i].item != db.shares[j].item || db.shares[i].user != db.shares[j].user
    {
      assert ShareKey(db.shares[i]) != ShareKey(db.shares[j]);
    }
  }

  // ---- exactly when sharing an item lowers an answer ----

  // What the user has on the item other than by a direct share.
  function Otherwise(db: Db, user: Id, item: Item, now: Instant): Access
    requires UniqueFolders(db.folders) && AcyclicAbove(db.folders, item.folder)
  {
    if item.createdBy == user then WriteAccess
    else MaxAccess(FromPerm(TopPerm(GroupSharePerms(db, db.groupShares, item.id, user, now))),
                   FolderQuery(db, user, item.folder, now))
  }

  lemma ItemQueryIsMax(db: Db, user: Id, id: Id, now: Instant)
    requires UniqueFolders(db.folders) && FindItem(db.items, id).Some?
    requires AcyclicAbove(db.folders, FindItem(db.items, id).value.folder)
    ensures ItemQuery(db, user, id, now)
            == MaxAccess(FromPerm(FirstShare(db.shares, id, user, now)),
                         Otherwise(db, user, FindItem(db.items, id).value, now))
  {
  }

  lemma {:induction false} FirstShareOfUpserted(shares: seq<Share>, s: Share, item: Id, user: Id, now: Instant)
    requires UniqueKeys(shares, ShareKey)
    ensures FirstShare(Upserted(shares, ShareKey, s), item, user, now)
            == if item == s.item && user == s.user then (if s.window.Active(now) then Some(s.perm) else None)
               else FirstShare(shares, item, user, now)
  {
    if shares != [] {
      if ShareKey(shares[0]) == ShareKey(s) {
        assert ([s] + shares[1..])[1..] == shares[1..];
        NoShare(shares[1..], s.item, s.user, now);
      } else {
        assert ([shares[0]] + Upserted(shares[1..], ShareKey, s))[1..] == Upserted(shares[1..], ShareKey, s);
        FirstShareOfUpserted(shares[1..], s, item, user, now);
      }
    } else {
      assert [s][1..] == [];
    }
  }

  lemma {:induction false} NoShare(shares: seq<Share>, item: Id, user: Id, now: Instant)
    requires forall i :: 0 <= i < |shares| ==> ShareKey(shares[i]) != (item, user)
    ensures FirstShare(shares, item, user, now).None?
  {
    if shares != [] {
      assert forall i :: 0 <= i < |shares| - 1 ==> shares[1..][i] == shares[i + 1];
      NoShare(shares[1..], item, user, now);
    }
  }

  lemma SharingLeavesOtherwise(db: Db, s: Share, user: Id, item: Item, now: Instant)
    requires UniqueFolders(db.folders) && AcyclicAbove(db.folders, item.folder)
    ensures Otherwise(Give(db, ItemToUser(s)), user, item, now) == Otherwise(db, user, item, now)
  {
    var db' := Give(db, ItemToUser(s));
    FolderQueryMeans(db, user, item.folder, now);
    FolderQueryMeans(db', user, item.folder, now);
    SameGroupShares(db, db', db.groupShares, item.id, user, now);
    forall need: Perm ensures Reaches(db', user, now, item.folder, need) <==> Reaches(db, user, now, item.folder, need) {
      SameGrants(db, db', user, now, item.folder, need);
    }
  }

  lemma SameGrants(db: Db, db': Db, user: Id, now: Instant, folder: Id, need: Perm)
    requires db'.folders == db.folders && db'.members == db.members
    requires db'.userGrants == db.userGrants && db'.groupGrants == db.groupGrants
    ensures Reaches(db', user, now, folder, need) <==> Reaches(db, user, now, folder, need)
  {
    forall id: Id, inherited: bool
      ensures Granted(db', user, now, id, need, inherited) <==> Granted(db, user, now, id, need, inherited)
    {
    }
  }

  // Sharing an item with a user lowers his answer exactly when the active share
  // it replaces gave more than the new one and more than anything else gives
  // him; it changes nobody else's.
  lemma SharingLowersIff(db: Db, s: Share, user: Id, id: Id, now: Instant)
    requires UniqueGrants(db) && UniqueFolders(db.folders) && FindItem(db.items, id).Some?
    requires AcyclicAbove(db.folders, FindItem(db.items, id).value.folder)
    ensures var db' := Give(db, ItemToUser(s));
            var gave := FromPerm(FirstShare(db.shares, id, user, now));
            var gives := if s.window.Active(now) then FromPerm(Some(s.perm)) else NoAccess;
            if (s.item, s.user) == (id, user) then
              !ItemQuery(db, user, id, now).AtMost(ItemQuery(db', user, id, now))
              <==> !gave.AtMost(gives) && !gave.AtMost(Otherwise(db, user, FindItem(db.items, id).value, now))
            else ItemQuery(db', user, id, now) == ItemQuery(db, user, id, now)
  {
    ItemQueryIsMax(db, user, id, now);
    ItemQueryIsMax(Give(db, ItemToUser(s)), user, id, now);
    FirstShareOfUpserted(db.shares, s, id, user, now);
    SharingLeavesOtherwise(db, s, user, FindItem(db.items, id).value, now);
  }

  // ---- sharing with a group ----

  // ShareGroup: the group's row and then one direct share for each listed member.
  function GiveAll(db: Db, members: seq<Id>, s: GroupShare): Db
    decreases members
  {
    if members == [] then db
    else GiveAll(Give(db, ItemToUser(Share(s.item, members[0], s.perm, s.window))), members[1..], s)
  }

  function ShareGroup(db: Db, s: GroupShare, members: seq<Id>): Db {
    GiveAll(Give(db, ItemToGroup(s)), members, s)
  }

  // The listed members end up with the new share, whatever they had before.
  lemma {:induction false} ListedGetNewShare(db: Db, members: seq<Id>, s: GroupShare, user: Id, now: Instant)
    requires UniqueGrants(db)
    ensures var db' := GiveAll(db, members, s);
            FirstShare(db'.shares, s.item, user, now)
            == if user in members then (if s.window.Active(now) then Some(s.perm) else None)
               else FirstShare(db.shares, s.item, user, now)
    decreases members
  {
    if members != [] {
      var share := Share(s.item, members[0], s.perm, s.window);
      GiveKeepsUnique(db, ItemToUser(share));
      FirstShareOfUpserted(db.shares, share, s.item, user, now);
      ListedGetNewShare(Give(db, ItemToUser(share)), members[1..], s, user, now);
    }
  }

  const ALWAYS := Window(false, None, None)
  const READ_FOR_GROUP := GroupShare("i", "g", Read, ALWAYS)

  // An item that "u", a member of "g", may write by a share of his own.
  const BEFORE := Db([Folder("f", None, "owner")], [], [], [Member("g", "u")], [Item("i", "f", "owner")],
                     [Share("i", "u", Write, ALWAYS)], [])

  const AFTER := BEFORE.(shares := [Share("i", "u", Read, ALWAYS)], groupShares := [READ_FOR_GROUP])

  lemma SharedInBoth()
    ensures ShareGroup(BEFORE, READ_FOR_GROUP, ["u"]) == AFTER
  {
    assert ["u"][1..] == [];
    var db := Give(BEFORE, ItemToGroup(READ_FOR_GROUP));
    assert db == BEFORE.(groupShares := [READ_FOR_GROUP]);
    assert Give(db, ItemToUser(Share("i", "u", Read, ALWAYS))) == AFTER;
  }

  lemma NoFolderAccess(db: Db, now: Instant)
    requires db.folders == BEFORE.folders && db.userGrants == [] && db.groupGrants == []
    ensures UniqueFolders(db.folders) && AcyclicAbove(db.folders, "f")
    ensures FolderQuery(db, "u", "f", now) == NoAccess
  {
    assert AncestorAt(db.folders, "f", 1).None?;
    EndsIffAcyclicAbove(db.folders, "f");
    FolderQueryMeans(db, "u", "f", now);
    assert forall need: Perm :: !Reaches(db, "u", now, "f", need);
  }

  // Sharing an item with a group for reading takes a listed member's own right
  // to write.
  lemma GroupSharingLowersWriter(now: Instant)
    ensures UniqueFolders(BEFORE.folders) && AcyclicAbove(BEFORE.folders, "f")
    ensures var db' := ShareGroup(BEFORE, READ_FOR_GROUP, ["u"]);
            && db'.folders == BEFORE.folders && db'.items == BEFORE.items
            && ItemQuery(BEFORE, "u", "i", now) == WriteAccess && ItemQuery(db', "u", "i", now) == ReadAccess
  {
    SharedInBoth();
    NoFolderAccess(BEFORE, now);
    NoFolderAccess(AFTER, now);
    assert FindItem(BEFORE.items, "i") == Some(Item("i", "f", "owner"));
    ItemQueryIsMax(AFTER, "u", "i", now);
    GroupSharePermsAre(AFTER, AFTER.groupShares, "i", "u", now, Write);
    assert FirstShare(AFTER.shares, "i", "u", now) == Some(Read);
  }

  // ---- what a grant gives ----

  // A grant in force gives its user its strength on the folder.
  lemma GivenFolderGrantCounts(db: Db, g: UserGrant, now: Instant)
    requires UniqueGrants(db) && UniqueFolders(db.folders) && AcyclicAbove(db.folders, g.folder)
    requires FindFolder(db.folders, g.folder).Some? && InForce(g.window, now)
    ensures var db' := Give(db, ToUser(g));
            FolderQuery(db', g.user, g.folder, now) == WriteAccess
            || (g.perm == Read && FolderQuery(db', g.user, g.folder, now) == ReadAccess)
  {
    var db' := Give(db, ToUser(g));
    UpsertedRows(db.userGrants, UserGrantKey, g, g);
    var i :| 0 <= i < |db'.userGrants| && db'.userGrants[i] == g;
    FolderGrantCounts(db', g.user, now, g.folder, g.perm, g.window, i);
  }

  // So does a share on the item, for its user or for every member of its group.
  lemma GivenShareCounts(db: Db, s: Share, now: Instant)
    requires UniqueGrants(db) && UniqueFolders(db.folders) && FindItem(db.items, s.item).Some?
    requires AcyclicAbove(db.folders, FindItem(db.items, s.item).value.folder) && InForce(s.window, now)
    ensures var db' := Give(db, ItemToUser(s));
            ItemQuery(db', s.user, s.item, now) == WriteAccess
            || (s.perm == Read && ItemQuery(db', s.user, s.item, now) == ReadAccess)
  {
    var db' := Give(db, ItemToUser(s));
    UpsertedRows(db.shares, ShareKey, s, s);
    GiveKeepsUnique(db, ItemToUser(s));
    SharesUnique(db');
    var i :| 0 <= i < |db'.shares| && db'.shares[i] == s;
    ShareCounts(db', s.user, now, s.item, s.perm, s.window, i);
  }

  lemma GivenGroupShareCounts(db: Db, s: GroupShare, user: Id, now: Instant)
    requires UniqueGrants(db) && UniqueFolders(db.folders) && FindItem(db.items, s.item).Some?
    requires AcyclicAbove(db.folders, FindItem(db.items, s.item).value.folder) && InForce(s.window, now)
    requires Member(s.group, user) in db.members
    ensures var db' := Give(db, ItemToGroup(s));
            ItemQuery(db', user, s.item, now) == WriteAccess
            || (s.perm == Read && ItemQuery(db', user, s.item, now) == ReadAccess)
  {
    var db' := Give(db, ItemToGroup(s));
    UpsertedRows(db.groupShares, GroupShareKey, s, s);
    SharesUnique(db);
    var i :| 0 <= i < |db'.groupShares| && db'.groupShares[i] == s;
    ShareCounts(db', user, now, s.item, s.perm, s.window, i);
  }

  // A folder grant that a group did not have before is in force at all times
  // and gives every member its strength.
  lemma NewGroupGrantCounts(db: Db, g: GroupGrant, user: Id, now: Instant)
    requires UniqueGrants(db) && UniqueFolders(db.folders) && AcyclicAbove(db.folders, g.folder)
    requires FindFolder(db.folders, g.folder).Some? && Member(g.group, user) in db.members
    requires forall o :: o in db.groupGrants ==> GroupGrantKey(o) != GroupGrantKey(g)
    ensures var db' := Give(db, ToGroup(g));
            FolderQuery(db', user, g.folder, now) == WriteAccess
            || (g.perm == Read && FolderQuery(db', user, g.folder, now) == ReadAccess)
  {
    var db', stored := Give(db, ToGroup(g)), AsStored(db, g);
    NoWindowYet(db.groupGrants, GroupGrantKey(g));
    UpsertedRows(db.groupGrants, GroupGrantKey, stored, stored);
    var i :| 0 <= i < |db'.groupGrants| && db'.groupGrants[i] == stored;
    FolderGrantCounts(db', user, now, g.folder, g.perm, stored.window, i);
  }

  lemma {:induction false} NoWindowYet(rows: seq<GroupGrant>, key: Key)
    requires forall o :: o in rows ==> GroupGrantKey(o) != key
    ensures WindowOf(rows, key) == Window(false, None, None)
  {
    if rows != [] {
      NoWindowYet(rows[1..], key);
    }
  }
}
