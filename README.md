# Collection memberships and search results

A Dafny model of two domain objects of a fanwork-archive web application:

- **`CollectionItem`** is the membership of an item (a work, a bookmark, ...) in a
  collection. It carries two independent approval statuses. One is given on
  behalf of the item's owners and one on behalf of the collection's
  maintainers. The model covers the validations run when a membership is saved,
  the status queries, `approve(user)` and `reject(user)`, and the
  `approve_automatically` callback. That callback runs after each save with the
  acting user.
- **`SearchResult`** is a lazy view over one search-engine response for one kind
  of stored record. `items` resolves the ranked hit ids to stored records and
  keeps the engine's order. `facets` resolves each facet category's term counts
  to labelled `SearchFacet`s. Both are computed on first use and memoised.

The files are:

- `wrappers.dfy`: `Option` and `Result`.
- `seqs.dfy`: Ruby's `compact`, and `flatten` over an array of groups and nils.
  It also holds two predicates that say "keeps some elements, in order":
  `Picks` and `IsSubsequence`.
- `collection_item.dfy`: the `CollectionItem` class.
- `search_result.dfy`: the record store, `items`, `facets` and the
  `SearchResult` class.

Modelling choices:

- The acting user (`User.current_user`) is an explicit `Option<User>` parameter.
- Ruby raises `NoMethodError` when it calls a method on `nil`. The operations
  report this as `raised == true`.
  - When this happens, the fields keep what the code had already assigned.
  - For example, `reject(nil)` raises, as written, when it reaches
    `user.pseuds`.
  - `approve(nil)` does not raise. It approves on the collection's side.
- `item.users.include?(user)` compares users by id, as records compare.
- A status column is `Option<int>`; `None` is a blank column.
- The store of a kind is a sequence of records.
  - `klass.where(id: ids)` is `Where`, in store order.
  - `group_by(&:id)` is `GroupById`.
- `String#to_i` and `Integer#to_s` are the parameters `toI` and `toS`.
- Resolving a class from a name (`classify.constantize`) is a `Registry` from
  names to stores. An unknown name is a `Failure(UnknownModel(name))`.

Two behaviours of the code are easy to miss:

- **`approve(user)` with no user.** A nil user approves on the collection's
  side, because line 72 of `app/models/collection_item.rb` reads
  `unless user && ...`. `Approve` models this.
- **A facet's id.** A facet's id is `term.to_i.to_s`, not the raw term
  (line 87 of `app/models/search_result.rb`). A term `"010"` therefore gives
  the id `toS(toI("010"))`.

## Model

| member | source | states |
|---|---|---|
| CollectionItems.StatusAllowed | app/models/collection_item.rb:17-23 | the status rule of both columns: blank, or one of -1, 0 and 1 |
| CollectionItems.IsOwner | app/models/collection_item.rb:66-71 | `item.users.include?(user)`: some owner of the item has the user's id |
| CollectionItems.SharesMaintainerPseud | app/models/collection_item.rb:67-72 | `collection.maintainers & user.pseuds` is not empty |
| CollectionItems.IsMaintainer | app/models/collection_item.rb:40 | `collection.user_is_maintainer?(user)`, false for a nil user |
| CollectionItems.IsPostingParticipant | app/models/collection_item.rb:40-49 | `collection.user_is_posting_participant?(user)`, false for a nil user |
| CollectionItems.ApprovesAsOwner | app/models/collection_item.rb:71 | the guard of the owners' side of `approve`: a user is given and owns the item |
| CollectionItems.ApprovesAsMaintainer | app/models/collection_item.rb:72 | the negated `unless` guard of the collection's side of `approve`: no user, or a user sharing a pseud with the maintainers |
| CollectionItems.AutoApprovesForCollection | app/models/collection_item.rb:39-43 | the collection-side rule of `approve_automatically`: a collection that is unmoderated, maintained by the acting user, or posted to by them with a pseud shared with the item |
| CollectionItems.QualifiesAsOwner | app/models/collection_item.rb:49 | an owner who approves collections automatically or is a posting participant of the collection |
| CollectionItems.SomeOwnerQualifies | app/models/collection_item.rb:47-53 | the item is present and the owner loop finds a qualifying owner |
| CollectionItems.CollectionItem.UniquenessKey | app/models/collection_item.rb:14 | the (collection id, item id, item type) columns the uniqueness rule is scoped to |
| CollectionItems.FirstQualifyingOwner | app/models/collection_item.rb:47-53 | the position where the owner loop stops: a qualifying owner (auto-approving, or a posting participant of the collection) with no qualifying owner before it; None exactly when no owner qualifies |
| CollectionItems.CollectionItem.constructor | app/models/collection_item.rb:11-12 | a membership holds the given collection, item and two statuses |
| CollectionItems.CollectionItem.Errors | app/models/collection_item.rb:14-28 | the uniqueness error is present iff the (collection, item id, item type) key is taken by another membership; the user-status error iff that status is neither blank nor -1, 0 or 1; the same for the collection status; the closed error iff the record is being created and its collection is closed; no error twice |
| CollectionItems.CollectionItem.ApprovedByUser | app/models/collection_item.rb:58 | the equality test of the user status against APPROVED |
| CollectionItems.CollectionItem.RejectedByUser | app/models/collection_item.rb:59 | the equality test of the user status against REJECTED |
| CollectionItems.CollectionItem.ApprovedByCollection | app/models/collection_item.rb:62 | the equality test of the collection status against APPROVED |
| CollectionItems.CollectionItem.RejectedByCollection | app/models/collection_item.rb:63 | the equality test of the collection status against REJECTED |
| CollectionItems.CollectionItem.ApproveByUser | app/models/collection_item.rb:57 | afterwards the membership is approved by the user; valid statuses stay valid; the collection status is untouched |
| CollectionItems.CollectionItem.ApproveByCollection | app/models/collection_item.rb:61 | afterwards the membership is approved by the collection; valid statuses stay valid; the user status is untouched |
| CollectionItems.CollectionItem.Reject | app/models/collection_item.rb:65-68 | raises exactly when the item, the collection or the user is missing; the user status becomes REJECTED iff the user is one of the item's owners, otherwise it is unchanged; the collection status becomes REJECTED iff nothing raised and the user shares a pseud with the maintainers, otherwise it is unchanged; valid statuses stay valid |
| CollectionItems.CollectionItem.Approve | app/models/collection_item.rb:70-73 | raises exactly when a user is given and the item or the collection is missing; the user status becomes APPROVED iff a user is given and owns the item, otherwise it is unchanged; the collection status becomes APPROVED iff nothing raised and there is no user or the user shares a pseud with the maintainers, otherwise it is unchanged |
| CollectionItems.CollectionItem.ApproveAutomatically | app/models/collection_item.rb:30-55 | raises exactly when `approve` does, and then only the owners' side of `approve` has taken effect; otherwise the user status is APPROVED iff the acting user owns the item or some owner qualifies, and the collection status is APPROVED iff `approve` approved it or the collection is unmoderated, maintained by the acting user, or posted to by them with a pseud shared with the item; `approve_by_user` is called at most once, and exactly when some owner qualifies; the loop examines the owners up to the first qualifying one, or all of them |
| CollectionItems.OwnerAddsToUnmoderated | app/models/collection_item.rb:30-55 | an owner adding their item to an unmoderated collection leaves it approved on both sides |
| CollectionItems.OutsiderAddsToModerated | app/models/collection_item.rb:30-55 | in a moderated collection, a user with no role there and no ownership of the item gets no collection approval, and the owners' side is approved iff some owner qualifies |
| Seqs.Compact | app/models/search_result.rb:63 | Ruby's `compact`, the present values in order; no longer than its input, with the full statement in `CompactMembers` and `CompactPicks` |
| Seqs.CompactMembers | app/models/search_result.rb:63 | `compact` keeps exactly the present values: each of its elements is present in the input, and each present value of the input is in it |
| Seqs.CompactPicks | app/models/search_result.rb:63 | `compact` picks the present values at strictly increasing positions covering every present position, so it keeps them all, in their order |
| Seqs.CompactAppend | app/models/search_result.rb:63 | `compact` distributes over concatenation |
| Seqs.CompactSomes | app/models/search_result.rb:63 | compacting a group with no nils gives the group back |
| Seqs.Flatten | app/models/search_result.rb:63 | every present element of the flattened array comes from one of the groups |
| Seqs.FlattenAppend | app/models/search_result.rb:63 | `flatten` distributes over concatenation |
| SearchResults.Where | app/models/search_result.rb:54 | the records returned are stored records with a requested id, and every stored record with a requested id is returned |
| SearchResults.GroupById | app/models/search_result.rb:54 | every record is in the group of its id; every group is non-empty and holds only records of its own id |
| SearchResults.WhereWithin | app/models/search_result.rb:83-86 | selecting one requested id from the fetched records is selecting it from the store |
| SearchResults.WhereAtMostOne | app/models/search_result.rb:54 | over a store with unique ids, one id selects at most one record |
| SearchResults.ItemIds | app/models/search_result.rb:58-60 | one raw id per hit, in rank order |
| SearchResults.IdSet | app/models/search_result.rb:54 | the ids `where(:id => ids)` asks for: the converted raw ids |
| SearchResults.Lookups | app/models/search_result.rb:63 | the `map` over the raw ids: one lookup of `items[id.to_i]` per raw id, in order, nil for an id with no group |
| SearchResults.OrderedItems | app/models/search_result.rb:62-64 | every item is in the group of one of the ranked ids |
| SearchResults.OrderedItemsIsConcat | app/models/search_result.rb:62-64 | `map`, `flatten` and `compact` together give the groups of the ranked ids concatenated in rank order, ids without a group adding nothing |
| SearchResults.ItemsFromResponse | app/models/search_result.rb:52-56 | every item is a stored record whose id is the converted id of some hit |
| SearchResults.ItemsCoverStoredHits | app/models/search_result.rb:52-64 | every stored record whose id is the converted id of some hit is among the items |
| SearchResults.ConcatFollowsRanking | app/models/search_result.rb:62-64 | with groups of at most one record under its own id, the result is no longer than the ranking and its ids are a subsequence of the ranked ids |
| SearchResults.ItemsFollowRanking | app/models/search_result.rb:51-64 | over a store with unique ids, there are at most as many items as hits, the items' ids are a subsequence of the hits' converted ids, and they are exactly `KeepStored` of them: the converted ids in rank order, repeats kept, with each id that has no stored record left out |
| SearchResults.RepeatedHitExample | app/models/search_result.rb:51-64 | hits "5", "5" over a store holding 5 give record 5 twice |
| SearchResults.RankedItemsExample | app/models/search_result.rb:51-64 | hits 5, 3, 9 over a store holding 3 and 5 give record 5, then record 3 |
| SearchResults.TermIds | app/models/search_result.rb:82 | the `map` over the entries to `result['term']`: one raw term per entry, in order |
| SearchResults.FacetObjects | app/models/search_result.rb:82-83 | `klass.where(id: ids).group_by(&:id)` for a category's terms |
| SearchResults.Blank | app/models/search_result.rb:86 | `facet_objects[id].blank?`: no group for the id, or an empty one |
| SearchResults.Candidate | app/models/search_result.rb:85-87 | what one entry adds: nothing when its group is blank, otherwise the facet of the converted id, the first record's label and the entry's count |
| SearchResults.Candidates | app/models/search_result.rb:84-89 | one candidate per entry, in entry order |
| SearchResults.TermFacets | app/models/search_result.rb:79-91 | the value of `facets_for_term` for a category that names a model, as the compacted candidates; its properties are stated in `TermFacetsFollowEntries` and `CandidatesAreStoreFacets` |
| SearchResults.CandidatesAreStoreFacets | app/models/search_result.rb:82-89 | each entry's outcome over the fetched groups equals the facet read directly off the store: nothing when no stored record has the entry's id, otherwise the converted id, the first record's label and the entry's count |
| SearchResults.TermFacetsFollowEntries | app/models/search_result.rb:79-91 | a category's facets are at most as many as its entries, in entry order, exactly one for each entry that has a stored record, each being that entry's store facet |
| SearchResults.FacetExample | app/models/search_result.rb:79-91 | terms 10 (count 4) and 11 (count 2) with no record 11 give the single facet ("10", label of 10, 4) |
| SearchResults.FacetsForTerm | app/models/search_result.rb:79-91 | fails naming the category when it names no model; otherwise gives that category's facets over its model's store |
| SearchResults.CollectFacets | app/models/search_result.rb:84-90 | the loop gives, in entry order, a facet for each entry whose group is not blank |
| SearchResults.FacetMap | app/models/search_result.rb:75 | the facet hash has exactly the response's categories as keys, each with at most as many facets as entries |
| SearchResults.FacetsFromResponse | app/models/search_result.rb:73-76 | no facet data gives nil; when every category names a model, the facets of every category under its name; otherwise a failure naming a category that names no model |
| SearchResults.SearchResult.constructor | app/models/search_result.rb:8-11 | a new result holds its store, response and conversions, with nothing memoised |
| SearchResults.SearchResult.Items | app/models/search_result.rb:14-16 | returns the items of the response and leaves them memoised; a memoised value is always the computed one |
| SearchResults.SearchResult.Facets | app/models/search_result.rb:18-20 | returns the facets of the response; a non-nil result is memoised and a memoised value is always the computed one; nil and failures leave nothing memoised |
| SearchResults.SearchResult.IsEmpty | app/models/search_result.rb:26-28 | empty iff there are no items |
| SearchResults.SearchResult.Size | app/models/search_result.rb:30-33 | the number of items |
| SearchResults.SearchResult.At | app/models/search_result.rb:35-37 | Ruby array indexing on the items: a non-negative index inside the items gives that item, a negative one counts from the end, anything else gives nil |
| SearchResults.NewSearchResult | app/models/search_result.rb:8-11 | fails naming the model when the name names no model; otherwise a fresh result over that model's store, with nothing memoised |
| SearchResults.ConsistentViews | app/models/search_result.rb:14-37 | two `items` calls agree; `empty?` holds iff `size` is zero; `size` is the number of items; indexing inside the size gives the item at that position |

## Left out

- `each` (search_result.rb:22-24) and `to_ary` (39-41), with the rest of the `Enumerable` methods they enable, take a caller's block or hand out the object itself. `Items` gives the same sequence.
- The pagination delegators (`total_pages`, `total_entries`, `per_page`, `offset`, `current_page`, search_result.rb:43) only forward to the search response. The response is a collaborator here and has no pagination model.
- `APPROVAL_OPTIONS` (collection_item.rb:7-9) and every error message are localised strings for forms and are not modelled. The error kinds are `ValidationError` values.
- The `belongs_to` associations are modelled as the optional `collection` and `item` fields. Loading them from the database is not modelled.
- The callback wiring (`after_save`, `validate ... :on => :create`) is not modelled. `ApproveAutomatically` is one run of the callback and `Errors` is one validation pass. The statuses the callback sets after a save are not persisted again by this code, and the model does not track persistence.
- `collection.rb`, `user.rb` and the preference model are not part of this model. The answers of `user_is_maintainer?` and `user_is_posting_participant?` are given as sets of user ids on `Collection`, and a nil user answers false. A user's preference is assumed to be present.
- CollectionItems.CollectionItem.Errors: does not model non-numeric or non-integer raw input to the status columns (`validates_numericality_of`), because a status is modelled as an already-typed integer or blank.
- CollectionItems.CollectionItem.Errors: checks uniqueness against an explicit set of the other memberships' keys, not against a database table.
- The database's ordering of `where` results is unspecified. The model uses store order. This decides which record's label a facet shows only when the store holds several records with one id, which primary keys rule out.
- The database compares the raw string ids of `where(id: ids)` with integer ids. The model assumes that comparison agrees with `to_i` (`toI`). The conversions `toI` and `toS` are otherwise arbitrary functions, not Ruby's exact string parsing and printing.
- `classify` (singularising and camel-casing a name) is not modelled. The registry is keyed by the name as given.
- SearchResults.FacetsFromResponse: when several categories name no model, Ruby raises for the first one in the hash's insertion order. The model only promises that the failure names one of them, because Dafny maps have no order.
- SearchResults.SearchResult.Facets: the same weaker promise about which unknown category is named.
- SearchResults.FacetMap: Ruby's `{}.tap { ... facets.each ... }` (search_result.rb:75) builds the facets hash in the response's category order. A Dafny `map` has no order, so the category order of the result is not modelled. The same holds for `FacetsFromResponse` and `SearchResult.Facets`.
