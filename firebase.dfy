/**
 * The Firestore-backed service's local state: the signed-in user, the groups
 * the user belongs to and the selected group. Each remote call is a
 * parameter: whether it succeeded, and what it returned.
 */
module Firebase {
  import opened Wrappers
  import opened Domain
  import opened Groups
  import opened FirebaseCodec

  /** The signed-in user. */
  datatype User = User(id: string, name: string, email: string)

  /** The path of a transaction document: its group and its own id. */
  datatype TransactionPath = TransactionPath(groupId: string, transactionId: string)

  /** A transaction document write: where, and which fields. */
  datatype TransactionWrite = TransactionWrite(path: TransactionPath, data: Fields)

  /** `firstIndex(where: { $0.id == id })` over groups. */
  function FirstGroupIndex(gs: seq<Group>, id: string): (r: Option<nat>)
    ensures r.Some? ==> r.value < |gs| && gs[r.value].id == id
    ensures r.Some? ==> forall j :: 0 <= j < r.value ==> gs[j].id != id
    ensures r.None? <==> forall j :: 0 <= j < |gs| ==> gs[j].id != id
  {
    if gs == [] then None
    else if gs[0].id == id then Some(0)
    else
      match FirstGroupIndex(gs[1..], id)
      case None =>
        assert forall j :: 1 <= j < |gs| ==> gs[j] == gs[1..][j - 1];
        None
      case Some(i) => Some(i + 1)
  }

  /** `removeAll { $0.id == id }` over groups. */
  function GroupsWithoutId(gs: seq<Group>, id: string): seq<Group> {
    if gs == [] then []
    else
      var rest := GroupsWithoutId(gs[..|gs| - 1], id);
      if gs[|gs| - 1].id == id then rest else rest + [gs[|gs| - 1]]
  }

  /** Removing a group by id leaves no group with that id and keeps every other group. */
  lemma {:induction false} GroupsWithoutIdSpec(gs: seq<Group>, id: string)
    ensures forall g :: g in GroupsWithoutId(gs, id) ==> g in gs && g.id != id
    ensures forall g :: g in gs && g.id != id ==> g in GroupsWithoutId(gs, id)
  {
    if gs != [] {
      var init := gs[..|gs| - 1];
      GroupsWithoutIdSpec(init, id);
      assert gs == init + [gs[|gs| - 1]];
    }
  }

  /** Removal drops every copy of a group with the id and keeps every other one as often as it occurs. */
  lemma {:induction false} GroupsWithoutIdCounts(gs: seq<Group>, id: string, g: Group)
    ensures multiset(GroupsWithoutId(gs, id))[g] == if g.id == id then 0 else multiset(gs)[g]
  {
    if gs != [] {
      var init := gs[..|gs| - 1];
      GroupsWithoutIdCounts(init, id, g);
      assert gs == init + [gs[|gs| - 1]];
    }
  }

  /** The local effect of adding a member: the group at `i` gains `userId` at the end of its members. */
  function WithMemberAt(gs: seq<Group>, i: nat, userId: string): (r: seq<Group>)
    requires i < |gs|
    ensures |r| == |gs|
  {
    gs[i := gs[i].(members := gs[i].members + [userId])]
  }

  /**
   * Adding a member changes only the chosen group, only by appending the new
   * member id, which is then a member even if it already was.
   */
  lemma WithMemberAtSpec(gs: seq<Group>, i: nat, userId: string)
    requires i < |gs|
    ensures forall j :: 0 <= j < |gs| && j != i ==> WithMemberAt(gs, i, userId)[j] == gs[j]
    ensures SameGroup(WithMemberAt(gs, i, userId)[i], gs[i])
    ensures WithMemberAt(gs, i, userId)[i].members[..|gs[i].members|] == gs[i].members
    ensures userId in WithMemberAt(gs, i, userId)[i].members
    ensures |WithMemberAt(gs, i, userId)[i].members| == |gs[i].members| + 1
  {
    var m := WithMemberAt(gs, i, userId)[i].members;
    assert m[|m| - 1] == userId;
  }

  class FirebaseService {
    var groups: seq<Group>
    var selectedGroup: Option<Group>
    var currentUser: Option<User>

    /** The service at start-up, with the user the SDK reports as signed in, if any. */
    constructor (signedIn: Option<User>)
      ensures groups == [] && selectedGroup == None && currentUser == signedIn
    {
      groups := [];
      selectedGroup := None;
      currentUser := signedIn;
    }

    /**
     * `createGroup(name:)`: fails without a signed-in user or when the write
     * fails; otherwise the new group, owned by the user and with the user as
     * its only member, is appended and selected.
     */
    method CreateGroup(name: string, documentId: string, now: Date, remoteOk: bool) returns (outcome: Outcome)
      modifies this
      ensures currentUser == old(currentUser)
      ensures outcome.Pass? <==> old(currentUser).Some? && remoteOk
      ensures outcome.Fail? ==> groups == old(groups) && selectedGroup == old(selectedGroup)
      ensures outcome.Pass? ==>
        var g := MakeGroup(documentId, name, old(currentUser).value.id, now, [old(currentUser).value.id]);
        groups == old(groups) + [g] && selectedGroup == Some(g)
    {
      if currentUser.None? {
        return Fail("用戶未登入");
      }
      var user := currentUser.value;
      var newGroup := MakeGroup(documentId, name, user.id, now, [user.id]);
      if !remoteOk {
        return Fail("write failed");
      }
      groups := groups + [newGroup];
      selectedGroup := Some(newGroup);
      outcome := Pass;
    }

    /**
     * `fetchGroups()`: nothing happens without a signed-in user; a failed
     * query fails; otherwise the groups become the well-formed documents of
     * the query's snapshot, in order.
     */
    method FetchGroups(snapshot: Option<seq<Document>>, now: Date) returns (outcome: Outcome)
      modifies this
      ensures currentUser == old(currentUser) && selectedGroup == old(selectedGroup)
      ensures outcome.Fail? <==> old(currentUser).Some? && snapshot.None?
      ensures old(currentUser).None? || snapshot.None? ==> groups == old(groups)
      ensures old(currentUser).Some? && snapshot.Some? ==> groups == DecodeGroups(snapshot.value, now)
    {
      if currentUser.None? {
        return Pass;
      }
      if snapshot.None? {
        return Fail("query failed");
      }
      groups := DecodeGroups(snapshot.value, now);
      outcome := Pass;
    }

    /**
     * `addMemberToGroup(_:)`: fails without a selected group, when no user has
     * the e-mail (`foundUserId` is the lookup's first hit) or when the write
     * fails; otherwise the group with the selected id gains the member at the
     * end of its member list and becomes the selection. Nothing changes
     * locally when no such group is in the list.
     */
    method AddMemberToGroup(foundUserId: Option<string>, remoteOk: bool) returns (outcome: Outcome)
      modifies this
      ensures currentUser == old(currentUser)
      ensures outcome.Pass? <==> old(selectedGroup).Some? && foundUserId.Some? && remoteOk
      ensures outcome.Fail? ==> groups == old(groups) && selectedGroup == old(selectedGroup)
      ensures outcome.Pass? ==>
        match FirstGroupIndex(old(groups), old(selectedGroup).value.id)
        case None => groups == old(groups) && selectedGroup == old(selectedGroup)
        case Some(i) =>
          groups == WithMemberAt(old(groups), i, foundUserId.value) && selectedGroup == Some(groups[i])
    {
      if selectedGroup.None? {
        return Fail("沒有選擇群組");
      }
      var group := selectedGroup.value;
      if foundUserId.None? {
        return Fail("找不到該用戶");
      }
      if !remoteOk {
        return Fail("write failed");
      }
      var index := FirstGroupIndex(groups, group.id);
      if index.Some? {
        var updatedGroup := groups[index.value];
        updatedGroup := updatedGroup.(members := updatedGroup.members + [foundUserId.value]);
        groups := groups[index.value := updatedGroup];
        selectedGroup := Some(updatedGroup);
      }
      outcome := Pass;
    }

    /** `selectGroup(_:)`. */
    method SelectGroup(group: Group)
      modifies this
      ensures selectedGroup == Some(group)
      ensures groups == old(groups) && currentUser == old(currentUser)
    {
      selectedGroup := Some(group);
    }

    /**
     * `deleteGroup(_:)`: only the owner may delete; a failed remote delete
     * fails; otherwise every group with that id is removed and the selection
     * is cleared exactly when it had that id.
     */
    method DeleteGroup(group: Group, remoteOk: bool) returns (outcome: Outcome)
      modifies this
      ensures currentUser == old(currentUser)
      ensures outcome.Pass? <==> IsOwner(old(currentUser), group) && remoteOk
      ensures outcome.Fail? ==> groups == old(groups) && selectedGroup == old(selectedGroup)
      ensures outcome.Pass? ==> groups == GroupsWithoutId(old(groups), group.id)
      ensures outcome.Pass? ==>
        selectedGroup == if old(selectedGroup).Some? && old(selectedGroup).value.id == group.id then None
                         else old(selectedGroup)
    {
      if currentUser.None? || group.owner != currentUser.value.id {
        return Fail("只有群組擁有者可以刪除群組");
      }
      if !remoteOk {
        return Fail("delete failed");
      }
      groups := GroupsWithoutId(groups, group.id);
      if selectedGroup.Some? && selectedGroup.value.id == group.id {
        selectedGroup := None;
      }
      outcome := Pass;
    }

    /**
     * `fetchTransactions(groupID:)`: refused without a signed-in user, when
     * the group document is missing, has no string-array `members`, or does
     * not list the user; a failed query fails; otherwise the well-formed
     * transaction documents, in the snapshot's order.
     */
    function FetchTransactions(groupData: Option<Fields>, snapshot: Option<seq<Document>>, gray: Color)
      : (r: Option<seq<Transaction>>)
      reads this
      ensures r.Some? <==> MayRead(currentUser, groupData) && snapshot.Some?
      ensures r.Some? ==> |r.value| <= |snapshot.value|
      ensures r.Some? ==> forall t :: t in r.value ==> exists d :: d in snapshot.value && d.id == t.id
    {
      if !MayRead(currentUser, groupData) || snapshot.None? then None
      else
        var docs := snapshot.value;
        CompactMapMembers(docs, d => DecodeTransaction(d, gray));
        Some(DecodeTransactions(docs, gray))
    }

    /**
     * `deleteTransaction(_:)`: refused without a selected group; otherwise
     * the transaction's document in the selected group is deleted.
     */
    method DeleteTransaction(t: Transaction, remoteOk: bool) returns (deleted: Option<TransactionPath>)
      ensures deleted.Some? <==> selectedGroup.Some? && remoteOk
      ensures deleted.Some? ==> deleted.value == TransactionPath(selectedGroup.value.id, t.id)
    {
      if selectedGroup.None? {
        return None;
      }
      if !remoteOk {
        return None;
      }
      deleted := Some(TransactionPath(selectedGroup.value.id, t.id));
    }

    /**
     * `updateTransaction(_:)`: refused without a selected group; otherwise
     * the transaction's fields are merged into its document in the selected
     * group, under its own id.
     */
    method UpdateTransaction(t: Transaction, remoteOk: bool) returns (written: Option<TransactionWrite>)
      ensures written.Some? <==> selectedGroup.Some? && remoteOk
      ensures written.Some? ==>
        written.value == TransactionWrite(TransactionPath(selectedGroup.value.id, t.id), EncodeTransaction(t, t.id, Update))
    {
      if selectedGroup.None? {
        return None;
      }
      var data := EncodeTransaction(t, t.id, Update);
      if !remoteOk {
        return None;
      }
      written := Some(TransactionWrite(TransactionPath(selectedGroup.value.id, t.id), data));
    }

    /**
     * `addTransaction(_:groupID:)`: a new document in the group, whose `id`
     * field is the new document's id and not the transaction's.
     */
    method AddTransaction(t: Transaction, groupId: string, documentId: string, remoteOk: bool)
      returns (written: Option<TransactionWrite>)
      ensures written.Some? <==> remoteOk
      ensures written.Some? ==>
        written.value == TransactionWrite(TransactionPath(groupId, documentId), EncodeTransaction(t, documentId, Create))
    {
      if !remoteOk {
        return None;
      }
      written := Some(TransactionWrite(TransactionPath(groupId, documentId), EncodeTransaction(t, documentId, Create)));
    }

    /**
     * `fetchCategories(groupID:)`: the group's well-formed category
     * documents, in order, each tagged with the group's id.
     */
    method FetchCategories(groupId: string, docs: seq<Document>, gray: Color) returns (categories: seq<Category>)
      ensures categories == DecodeCategories(docs, groupId, gray)
    {
      categories := [];
      for i := 0 to |docs|
        invariant categories == DecodeCategories(docs[..i], groupId, gray)
      {
        assert docs[..i + 1][..i] == docs[..i];
        var category := DecodeCategory(docs[i], groupId, gray);
        if category.Some? {
          categories := categories + [category.value];
        }
      }
      assert docs[..|docs|] == docs;
    }
  }

  /** The owner check of `deleteGroup`. */
  predicate IsOwner(user: Option<User>, group: Group) {
    user.Some? && group.owner == user.value.id
  }

  /** The membership check of `fetchTransactions`. */
  predicate MayRead(user: Option<User>, groupData: Option<Fields>) {
    && user.Some? && groupData.Some?
    && StringArrayField(groupData.value, "members").Some?
    && user.value.id in StringArrayField(groupData.value, "members").value
  }

  /**
   * After a successful create, the creator owns the selected group, so the
   * owner check of a delete passes for it and the membership check of a
   * fetch passes on the document that create wrote.
   */
  lemma CreatorMayDeleteAndRead(user: User, documentId: string, name: string, now: Date)
    ensures IsOwner(Some(user), MakeGroup(documentId, name, user.id, now, [user.id]))
    ensures MayRead(Some(user), Some(GroupData(name, user.id)))
  {
    StringListRoundTrip([user.id], GroupData(name, user.id), "members");
  }
}
