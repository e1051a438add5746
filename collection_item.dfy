/**
 * A membership of an item (a work, a bookmark, ...) in a collection, with
 * two independent approval statuses: one given on behalf of the item's
 * owners and one on behalf of the collection's maintainers.
 *
 * The acting user (the application's "current user") is an explicit
 * parameter. Where the Ruby code would call a method on `nil` and raise
 * `NoMethodError`, the operations return `raised == true`; the fields then
 * hold whatever the code had already assigned before the failing call.
 */
module CollectionItems {
  import opened Wrappers

  const NEUTRAL: int := 0
  const APPROVED: int := 1
  const REJECTED: int := -1

  /** An approval status column; `None` is a blank (NULL) column. */
  type Status = Option<int>

  /** A user: the pseuds (identities) they post under and their preference. */
  datatype User = User(id: int, pseuds: set<int>, automaticallyApproveCollections: bool)

  /**
   * A collection. `maintainers` are the maintainers' pseuds. The answers of
   * the collection's role queries `user_is_maintainer?` and
   * `user_is_posting_participant?` are given as the sets of user ids for
   * which they hold.
   */
  datatype Collection = Collection(
    id: int,
    closed: bool,
    moderated: bool,
    maintainers: set<int>,
    maintainerUsers: set<int>,
    postingParticipantUsers: set<int>)

  /** The item of a membership: its type, its id, its owning users and their pseuds on it. */
  datatype Item = Item(itemType: string, id: int, users: seq<User>, pseuds: set<int>)

  /** The columns a membership must be unique on. */
  datatype Key = Key(collectionId: Option<int>, itemId: Option<int>, itemType: Option<string>)

  datatype ValidationError = NotUnique | InvalidUserStatus | InvalidCollectionStatus | CollectionClosed

  /** A status passes validation when blank or one of the three constants. */
  predicate StatusAllowed(s: Status) {
    s.None? || s.value in {REJECTED, NEUTRAL, APPROVED}
  }

  /** `item.users.include?(user)`; users compare by id, as records do. */
  predicate IsOwner(item: Item, user: User) {
    exists k :: 0 <= k < |item.users| && item.users[k].id == user.id
  }

  /** `collection.maintainers & user.pseuds` is not empty. */
  predicate SharesMaintainerPseud(collection: Collection, user: User) {
    collection.maintainers * user.pseuds != {}
  }

  /** `collection.user_is_maintainer?(user)`; false for a nil user. */
  predicate IsMaintainer(collection: Collection, user: Option<User>) {
    user.Some? && user.value.id in collection.maintainerUsers
  }

  /** `collection.user_is_posting_participant?(user)`; false for a nil user. */
  predicate IsPostingParticipant(collection: Collection, user: Option<User>) {
    user.Some? && user.value.id in collection.postingParticipantUsers
  }

  /** The condition under which `approve(user)` approves on the owners' side. */
  predicate ApprovesAsOwner(item: Option<Item>, user: Option<User>) {
    user.Some? && item.Some? && IsOwner(item.value, user.value)
  }

  /**
   * The condition under which `approve(user)` approves on the collection's
   * side: no user at all, or a user sharing a pseud with the maintainers.
   */
  predicate ApprovesAsMaintainer(collection: Option<Collection>, user: Option<User>) {
    user.None? || (collection.Some? && SharesMaintainerPseud(collection.value, user.value))
  }

  /**
   * The collection-side rule of `approve_automatically`: the collection is
   * unmoderated, or the acting user maintains it, or the acting user is a
   * posting participant sharing a pseud with the item.
   */
  predicate AutoApprovesForCollection(collection: Option<Collection>, item: Option<Item>, user: Option<User>) {
    collection.Some? &&
    (!collection.value.moderated
     || IsMaintainer(collection.value, user)
     || (IsPostingParticipant(collection.value, user) && item.Some? &&
         item.value.pseuds * user.value.pseuds != {}))
  }

  /** An owner whose consent `approve_automatically` takes for granted. */
  predicate QualifiesAsOwner(collection: Option<Collection>, owner: User) {
    owner.automaticallyApproveCollections
    || (collection.Some? && IsPostingParticipant(collection.value, Some(owner)))
  }

  /** The position of the first qualifying owner, where the owner loop stops. */
  function FirstQualifyingOwner(users: seq<User>, collection: Option<Collection>): (r: Option<nat>)
    ensures r.Some? ==>
      r.value < |users| && QualifiesAsOwner(collection, users[r.value]) &&
      forall j :: 0 <= j < r.value ==> !QualifiesAsOwner(collection, users[j])
    ensures r.None? ==> forall j :: 0 <= j < |users| ==> !QualifiesAsOwner(collection, users[j])
  {
    if users == [] then None
    else if QualifiesAsOwner(collection, users[0]) then Some(0)
    else match FirstQualifyingOwner(users[1..], collection)
      case None => None
      case Some(k) => Some(k + 1)
  }

  /** Some owner of the item (if any) qualifies. */
  predicate SomeOwnerQualifies(item: Option<Item>, collection: Option<Collection>) {
    item.Some? && FirstQualifyingOwner(item.value.users, collection).Some?
  }

  /** No error is reported twice. */
  predicate NoDuplicates(errs: seq<ValidationError>) {
    forall i, j :: 0 <= i < j < |errs| ==> errs[i] != errs[j]
  }

  /** One validation: appends its error when it fails. */
  function AddError(errs: seq<ValidationError>, failed: bool, e: ValidationError): (r: seq<ValidationError>)
    requires NoDuplicates(errs) && e !in errs
    ensures forall x :: x in r <==> x in errs || (failed && x == e)
    ensures NoDuplicates(r)
  {
    if failed then errs + [e] else errs
  }

  class CollectionItem {
    var collection: Option<Collection>
    var item: Option<Item>
    var userApprovalStatus: Status
    var collectionApprovalStatus: Status

    constructor (collection: Option<Collection>, item: Option<Item>,
                 userApprovalStatus: Status, collectionApprovalStatus: Status)
      ensures this.collection == collection && this.item == item
      ensures this.userApprovalStatus == userApprovalStatus
      ensures this.collectionApprovalStatus == collectionApprovalStatus
    {
      this.collection := collection;
      this.item := item;
      this.userApprovalStatus := userApprovalStatus;
      this.collectionApprovalStatus := collectionApprovalStatus;
    }

    /** The `(collection_id, item_id, item_type)` columns of this membership. */
    function UniquenessKey(): Key
      reads this
    {
      Key(if collection.Some? then Some(collection.value.id) else None,
          if item.Some? then Some(item.value.id) else None,
          if item.Some? then Some(item.value.itemType) else None)
    }

    /**
     * The validation errors of this membership, given the keys of all
     * other memberships; the closed-collection rule applies on create only.
     * The validations run in declaration order, each adding its error.
     */
    function Errors(others: set<Key>, onCreate: bool): (errs: seq<ValidationError>)
      reads this
      ensures NotUnique in errs <==> UniquenessKey() in others
      ensures InvalidUserStatus in errs <==> !StatusAllowed(userApprovalStatus)
      ensures InvalidCollectionStatus in errs <==> !StatusAllowed(collectionApprovalStatus)
      ensures CollectionClosed in errs <==> onCreate && collection.Some? && collection.value.closed
      ensures NoDuplicates(errs)
    {
      var uniqueness := AddError([], UniquenessKey() in others, NotUnique);
      var userStatus := AddError(uniqueness, !StatusAllowed(userApprovalStatus), InvalidUserStatus);
      var collectionStatus := AddError(userStatus, !StatusAllowed(collectionApprovalStatus), InvalidCollectionStatus);
      AddError(collectionStatus, onCreate && collection.Some? && collection.value.closed, CollectionClosed)
    }

    /** Both statuses would pass validation. */
    predicate StatusesValid()
      reads this
    {
      StatusAllowed(userApprovalStatus) && StatusAllowed(collectionApprovalStatus)
    }

    /** `approved_by_user?` */
    predicate ApprovedByUser()
      reads this
    {
      userApprovalStatus == Some(APPROVED)
    }

    /** `rejected_by_user?` */
    predicate RejectedByUser()
      reads this
    {
      userApprovalStatus == Some(REJECTED)
    }

    /** `approved_by_collection?` */
    predicate ApprovedByCollection()
      reads this
    {
      collectionApprovalStatus == Some(APPROVED)
    }

    /** `rejected_by_collection?` */
    predicate RejectedByCollection()
      reads this
    {
      collectionApprovalStatus == Some(REJECTED)
    }

    method ApproveByUser()
      modifies this`userApprovalStatus
      ensures ApprovedByUser()
      ensures old(StatusesValid()) ==> StatusesValid()
    {
      userApprovalStatus := Some(APPROVED);
    }

    method ApproveByCollection()
      modifies this`collectionApprovalStatus
      ensures ApprovedByCollection()
      ensures old(StatusesValid()) ==> StatusesValid()
    {
      collectionApprovalStatus := Some(APPROVED);
    }

    /**
     * `reject(user)`. Raises when the item or the collection is missing,
     * and for a nil user (whose pseuds are asked for); the owners' side has
     * been decided by then unless the item was missing.
     */
    method Reject(user: Option<User>) returns (raised: bool)
      modifies this`userApprovalStatus, this`collectionApprovalStatus
      ensures raised <==> item.None? || collection.None? || user.None?
      ensures userApprovalStatus ==
        if ApprovesAsOwner(item, user) then Some(REJECTED) else old(userApprovalStatus)
      ensures collectionApprovalStatus ==
        if !raised && SharesMaintainerPseud(collection.value, user.value) then Some(REJECTED)
        else old(collectionApprovalStatus)
      ensures old(StatusesValid()) ==> StatusesValid()
    {
      if item.None? {
        return true;
      }
      if user.Some? && IsOwner(item.value, user.value) {
        userApprovalStatus := Some(REJECTED);
      }
      if collection.None? || user.None? {
        return true;
      }
      if SharesMaintainerPseud(collection.value, user.value) {
        collectionApprovalStatus := Some(REJECTED);
      }
      raised := false;
    }

    /**
     * `approve(user)`. A nil user skips the owners' side and approves on
     * the collection's side. A user raises when the item is missing, or
     * (after the owners' side) when the collection is missing.
     */
    method Approve(user: Option<User>) returns (raised: bool)
      modifies this`userApprovalStatus, this`collectionApprovalStatus
      ensures raised <==> user.Some? && (item.None? || collection.None?)
      ensures userApprovalStatus ==
        if ApprovesAsOwner(item, user) then Some(APPROVED) else old(userApprovalStatus)
      ensures collectionApprovalStatus ==
        if !raised && ApprovesAsMaintainer(collection, user) then Some(APPROVED)
        else old(collectionApprovalStatus)
      ensures old(StatusesValid()) ==> StatusesValid()
    {
      if user.Some? {
        if item.None? {
          return true;
        }
        if IsOwner(item.value, user.value) {
          userApprovalStatus := Some(APPROVED);
        }
        if collection.None? {
          return true;
        }
      }
      if user.None? || SharesMaintainerPseud(collection.value, user.value) {
        collectionApprovalStatus := Some(APPROVED);
      }
      raised := false;
    }

    /**
     * `approve_automatically`, run after every save with the acting user.
     * `ownersExamined` counts the owners the loop looked at and
     * `byUserCalls` the calls it made to `approve_by_user`.
     */
    method ApproveAutomatically(currentUser: Option<User>)
      returns (raised: bool, ghost ownersExamined: nat, ghost byUserCalls: nat)
      modifies this`userApprovalStatus, this`collectionApprovalStatus
      ensures raised <==> currentUser.Some? && (item.None? || collection.None?)
      ensures raised ==>
        && userApprovalStatus ==
             (if ApprovesAsOwner(item, currentUser) then Some(APPROVED) else old(userApprovalStatus))
        && collectionApprovalStatus == old(collectionApprovalStatus)
      ensures !raised ==>
        && userApprovalStatus ==
             (if ApprovesAsOwner(item, currentUser) || SomeOwnerQualifies(item, collection)
              then Some(APPROVED) else old(userApprovalStatus))
        && collectionApprovalStatus ==
             (if ApprovesAsMaintainer(collection, currentUser)
                 || AutoApprovesForCollection(collection, item, currentUser)
              then Some(APPROVED) else old(collectionApprovalStatus))
      ensures byUserCalls <= 1
      ensures byUserCalls == 1 <==> !raised && SomeOwnerQualifies(item, collection)
      ensures !raised && item.Some? ==>
        ownersExamined ==
          match FirstQualifyingOwner(item.value.users, collection)
          case Some(k) => k + 1
          case None => |item.value.users|
      ensures old(StatusesValid()) ==> StatusesValid()
    {
      ownersExamined, byUserCalls := 0, 0;
      raised := Approve(currentUser);
      if raised {
        return;
      }
      if collection.Some? {
        var c := collection.value;
        var viaParticipant := false;
        if IsPostingParticipant(c, currentUser) {
          // approve has not raised, so the item is there
          viaParticipant := item.value.pseuds * currentUser.value.pseuds != {};
        }
        if !c.moderated || IsMaintainer(c, currentUser) || viaParticipant {
          ApproveByCollection();
        }
      }
      if item.Some? {
        var users := item.value.users;
        var k := 0;
        while k < |users|
          invariant 0 <= k <= |users|
          invariant forall j :: 0 <= j < k ==> !QualifiesAsOwner(collection, users[j])
          invariant byUserCalls == 0 && ownersExamined == k
          invariant userApprovalStatus ==
            if ApprovesAsOwner(item, currentUser) then Some(APPROVED) else old(userApprovalStatus)
        {
          ownersExamined := k + 1;
          if QualifiesAsOwner(collection, users[k]) {
            ApproveByUser();
            byUserCalls := 1;
            break;
          }
          k := k + 1;
        }
        assert byUserCalls == 1 ==> FirstQualifyingOwner(users, collection) == Some(k);
        assert byUserCalls == 0 ==> FirstQualifyingOwner(users, collection).None?;
      }
    }
  }

  /** Items owned by `owner` and added by them to an unmoderated collection are approved on both sides. */
  method OwnerAddsToUnmoderated(owner: User, collection: Collection, item: Item)
    returns (byUser: bool, byCollection: bool)
    requires IsOwner(item, owner) && !collection.moderated
    ensures byUser && byCollection
  {
    var membership := new CollectionItem(Some(collection), Some(item), None, None);
    var raised, _, _ := membership.ApproveAutomatically(Some(owner));
    byUser := membership.ApprovedByUser();
    byCollection := membership.ApprovedByCollection();
  }

  /**
   * In a moderated collection, a user who neither owns the item nor
   * maintains or posts to the collection gets no approval on either side,
   * unless an owner's preference or participation approves the owners' side.
   */
  method OutsiderAddsToModerated(user: User, collection: Collection, item: Item)
    returns (byUser: bool, byCollection: bool)
    requires collection.moderated && !IsOwner(item, user)
    requires !SharesMaintainerPseud(collection, user)
    requires !IsMaintainer(collection, Some(user)) && !IsPostingParticipant(collection, Some(user))
    ensures !byCollection
    ensures byUser <==> exists k :: 0 <= k < |item.users| && QualifiesAsOwner(Some(collection), item.users[k])
  {
    var membership := new CollectionItem(Some(collection), Some(item), Some(NEUTRAL), Some(NEUTRAL));
    var raised, _, _ := membership.ApproveAutomatically(Some(user));
    byUser := membership.ApprovedByUser();
    byCollection := membership.ApprovedByCollection();
  }
}
