/**
 * What the Postgres group repository does after its queries return: folding
 * the ordered (group, member) rows of the member resolution into one entry
 * per run of rows of the same group, counting the distinct staff ids, and
 * merging an update request into the stored group.
 */
module GroupRepository {
  import opened Types
  import opened Sorting
  import opened Text
  import opened StaffDirectory

  /** One row of the member-resolution query: a group and one of its active members. */
  datatype ResolvedMemberRow = ResolvedMemberRow(
    groupId: Uuid,
    groupName: string,
    groupParentId: Option<Uuid>,
    groupCreatedAt: Timestamp,
    groupUpdatedAt: Timestamp,
    staffId: Uuid,
    staffName: string,
    staffEmail: string,
    staffPosition: string,
    staffStatus: StaffStatus,
    staffCreatedAt: Timestamp,
    staffUpdatedAt: Timestamp)

  /** How the group lookups name a missing group in their `NotFound` message. */
  const GroupLabel: string := "Group with id "

  function RowStaff(row: ResolvedMemberRow): Staff
  {
    Staff(row.staffId, row.staffName, row.staffEmail, row.staffPosition, row.staffStatus,
          row.staffCreatedAt, row.staffUpdatedAt)
  }

  function RowGroup(row: ResolvedMemberRow): StaffGroup
  {
    StaffGroup(row.groupId, row.groupName, row.groupParentId, row.groupCreatedAt, row.groupUpdatedAt)
  }

  // ------------------------------------------------------------ unique count

  function StaffIdsOf(rows: seq<ResolvedMemberRow>): (ids: seq<Uuid>)
    ensures |ids| == |rows| && forall i :: 0 <= i < |rows| ==> ids[i] == rows[i].staffId
  {
    if rows == [] then [] else StaffIdsOf(rows[..|rows| - 1]) + [rows[|rows| - 1].staffId]
  }

  /** The staff ids the rows mention, each once. */
  function StaffIdSet(rows: seq<ResolvedMemberRow>): set<Uuid>
  {
    set i | 0 <= i < |rows| :: rows[i].staffId
  }

  function UuidLe(a: Uuid, b: Uuid): bool
  {
    a <= b
  }

  /**
   * `Vec::dedup`: drops every element equal to the one kept just before it.
   * On a sorted input no value is left twice.
   */
  method Dedup(s: seq<Uuid>) returns (r: seq<Uuid>)
    ensures forall x :: x in r <==> x in s
    ensures forall i :: 0 < i < |r| ==> r[i - 1] != r[i]
    ensures SortedBy(s, UuidLe) ==> forall i, j :: 0 <= i < j < |r| ==> r[i] < r[j]
    ensures |r| <= |s|
  {
    r := [];
    for k := 0 to |s|
      invariant forall x :: x in r <==> x in s[..k]
      invariant |r| <= k
      invariant k > 0 ==> r != [] && r[|r| - 1] == s[k - 1]
      invariant forall i :: 0 < i < |r| ==> r[i - 1] != r[i]
      invariant SortedBy(s, UuidLe) ==> forall i, j :: 0 <= i < j < |r| ==> r[i] < r[j]
    {
      assert s[..k + 1] == s[..k] + [s[k]];
      if r == [] || r[|r| - 1] != s[k] {
        r := r + [s[k]];
      }
    }
    assert s[..|s|] == s;
  }

  lemma StrictlyIncreasingIsDistinct(r: seq<Uuid>)
    requires forall i, j :: 0 <= i < j < |r| ==> r[i] < r[j]
    ensures Distinct(r)
  {
  }

  /** A repeat-free list of the rows' staff ids has one element per distinct id. */
  lemma DistinctIdsCount(unique: seq<Uuid>, rows: seq<ResolvedMemberRow>)
    requires Distinct(unique)
    requires forall x :: x in unique <==> x in StaffIdsOf(rows)
    ensures |unique| == |StaffIdSet(rows)|
  {
    DistinctSize(unique);
    assert Elements(unique) == Elements(StaffIdsOf(rows));
    IdsOfRows(rows);
  }

  lemma IdsOfRows(rows: seq<ResolvedMemberRow>)
    ensures Elements(StaffIdsOf(rows)) == StaffIdSet(rows)
  {
    var ids := StaffIdsOf(rows);
    forall x | x in ids ensures x in StaffIdSet(rows) {
      var i :| 0 <= i < |ids| && ids[i] == x;
      assert rows[i].staffId == x;
    }
  }

  lemma SameElements(a: seq<Uuid>, b: seq<Uuid>)
    requires multiset(a) == multiset(b)
    ensures forall x :: x in a <==> x in b
  {
    forall x ensures x in a <==> x in b {
      assert x in a <==> x in multiset(a);
      assert x in b <==> x in multiset(b);
    }
  }

  /** The number of distinct staff ids among the rows: sort, dedup, count. */
  method UniqueCount(rows: seq<ResolvedMemberRow>) returns (count: nat)
    ensures count == |StaffIdSet(rows)|
  {
    var ids := StaffIdsOf(rows);
    assert TotalPreorder(UuidLe);
    var sorted := InsertionSort(ids, UuidLe);
    SortSorted(ids, UuidLe);
    var unique := Dedup(sorted);
    StrictlyIncreasingIsDistinct(unique);
    SameElements(ids, sorted);
    DistinctIdsCount(unique, rows);
    count := |unique|;
  }

  // -------------------------------------------------------------- row folding

  /** The members of all entries, entry after entry. */
  function Flatten(entries: seq<GroupWithMembers>): seq<Staff>
  {
    if entries == [] then [] else Flatten(entries[..|entries| - 1]) + entries[|entries| - 1].members
  }

  /** Each member's entry's group id, in the order of `Flatten`. */
  function Labels(entries: seq<GroupWithMembers>): seq<Uuid>
  {
    if entries == [] then []
    else
      var last := entries[|entries| - 1];
      Labels(entries[..|entries| - 1]) + Repeat(last.group.id, |last.members|)
  }

  function Repeat(x: Uuid, n: nat): (r: seq<Uuid>)
    ensures |r| == n && forall i :: 0 <= i < n ==> r[i] == x
  {
    if n == 0 then [] else Repeat(x, n - 1) + [x]
  }

  function RowsStaff(rows: seq<ResolvedMemberRow>): (r: seq<Staff>)
    ensures |r| == |rows| && forall i :: 0 <= i < |rows| ==> r[i] == RowStaff(rows[i])
  {
    if rows == [] then [] else RowsStaff(rows[..|rows| - 1]) + [RowStaff(rows[|rows| - 1])]
  }

  function RowsGroupIds(rows: seq<ResolvedMemberRow>): (r: seq<Uuid>)
    ensures |r| == |rows| && forall i :: 0 <= i < |rows| ==> r[i] == rows[i].groupId
  {
    if rows == [] then [] else RowsGroupIds(rows[..|rows| - 1]) + [rows[|rows| - 1].groupId]
  }

  /** What folding the first rows has built. */
  ghost predicate Folded(rows: seq<ResolvedMemberRow>, entries: seq<GroupWithMembers>)
  {
    Flatten(entries) == RowsStaff(rows) && Labels(entries) == RowsGroupIds(rows) &&
    (forall i :: 0 <= i < |entries| ==> entries[i].members != []) &&
    (forall i :: 0 < i < |entries| ==> entries[i - 1].group.id != entries[i].group.id)
  }

  /**
   * Folds the ordered rows into entries. A row whose group is the group of
   * the previous row joins the last entry; any other row starts a new entry.
   * So the members, entry after entry, are the rows' staff in row order,
   * each under its own row's group, and neighbouring entries differ in group.
   */
  method FoldRows(rows: seq<ResolvedMemberRow>) returns (result: seq<GroupWithMembers>)
    ensures Folded(rows, result)
    ensures rows == [] <==> result == []
  {
    result := [];
    var currentGroupId: Option<Uuid> := None;
    for k := 0 to |rows|
      invariant Folded(rows[..k], result)
      invariant currentGroupId == if result == [] then None else Some(result[|result| - 1].group.id)
      invariant k > 0 <==> result != []
    {
      var row := rows[k];
      var staff := RowStaff(row);
      assert rows[..k + 1] == rows[..k] + [row];
      if currentGroupId == Some(row.groupId) {
        var last := result[|result| - 1];
        var grown := last.(members := last.members + [staff]);
        JoinLast(rows[..k], result, row, last, grown);
        result := result[..|result| - 1] + [grown];
      } else {
        currentGroupId := Some(row.groupId);
        var entry := GroupWithMembers(RowGroup(row), [staff]);
        StartEntry(rows[..k], result, row, entry);
        result := result + [entry];
      }
    }
    assert rows[..|rows|] == rows;
  }

  lemma JoinLast(rows: seq<ResolvedMemberRow>, entries: seq<GroupWithMembers>, row: ResolvedMemberRow,
                 last: GroupWithMembers, grown: GroupWithMembers)
    requires Folded(rows, entries) && entries != [] && last == entries[|entries| - 1]
    requires last.group.id == row.groupId && grown == last.(members := last.members + [RowStaff(row)])
    ensures Folded(rows + [row], entries[..|entries| - 1] + [grown])
  {
    var init := entries[..|entries| - 1];
    var next := init + [grown];
    assert next[..|next| - 1] == init;
    assert entries == init + [last];
    assert (rows + [row])[..|rows|] == rows;
    assert Repeat(row.groupId, |grown.members|) == Repeat(row.groupId, |last.members|) + [row.groupId];
    assert Flatten(next) == Flatten(init) + last.members + [RowStaff(row)];
    assert Labels(next) == Labels(init) + Repeat(row.groupId, |last.members|) + [row.groupId];
    forall i | 0 < i < |next| ensures next[i - 1].group.id != next[i].group.id {
      assert next[i - 1].group.id == entries[i - 1].group.id && next[i].group.id == entries[i].group.id;
    }
  }

  lemma StartEntry(rows: seq<ResolvedMemberRow>, entries: seq<GroupWithMembers>, row: ResolvedMemberRow,
                   entry: GroupWithMembers)
    requires Folded(rows, entries)
    requires entries != [] ==> entries[|entries| - 1].group.id != row.groupId
    requires entry == GroupWithMembers(RowGroup(row), [RowStaff(row)])
    ensures Folded(rows + [row], entries + [entry])
  {
    var next := entries + [entry];
    assert next[..|next| - 1] == entries;
    assert (rows + [row])[..|rows|] == rows;
    assert Repeat(row.groupId, 1) == [row.groupId];
  }

  /** The member resolution after its query: the entries and the distinct-member count. */
  method GetResolvedMembers(rows: Result<seq<ResolvedMemberRow>>)
    returns (r: Result<(seq<GroupWithMembers>, nat)>)
    ensures rows.Err? ==> r == Err(rows.error)
    ensures rows.Ok? ==>
              r.Ok? && Folded(rows.value, r.value.0) &&
              r.value.1 == |StaffIdSet(rows.value)| &&
              (rows.value == [] ==> r.value == ([], 0))
  {
    if rows.Err? {
      return Err(rows.error);
    }
    var uniqueCount := UniqueCount(rows.value);
    var result := FoldRows(rows.value);
    r := Ok((result, uniqueCount));
  }

  /** The members resolved across all entries are exactly as many as the rows. */
  lemma {:induction false} FoldedTotal(rows: seq<ResolvedMemberRow>, entries: seq<GroupWithMembers>)
    requires Folded(rows, entries)
    ensures |Flatten(entries)| == |rows| && |entries| <= |rows|
  {
    FlattenAtLeastEntries(entries);
  }

  lemma {:induction false} FlattenAtLeastEntries(entries: seq<GroupWithMembers>)
    requires forall i :: 0 <= i < |entries| ==> entries[i].members != []
    ensures |Flatten(entries)| >= |entries|
  {
    if entries != [] {
      FlattenAtLeastEntries(entries[..|entries| - 1]);
    }
  }

  // ------------------------------------------------------------------- update

  /**
   * The stored group after an update: a name given replaces the name, a
   * parent given replaces the parent, and a missing parent keeps the current
   * one, so an update can never clear a parent.
   */
  function MergeUpdate(current: StaffGroup, request: UpdateGroupRequest, now: Timestamp): (g: StaffGroup)
    ensures g.id == current.id && g.createdAt == current.createdAt && g.updatedAt == now
    ensures g.name == if request.name.Some? then request.name.value else current.name
    ensures g.parentId == if request.parentId.Some? then request.parentId else current.parentId
    ensures current.parentId.Some? ==> g.parentId.Some?
  {
    current.(name := request.name.GetOr(current.name), parentId := request.parentId.Or(current.parentId), updatedAt := now)
  }

  /** Applying the same update twice is applying it once. */
  lemma MergeUpdateIdempotent(current: StaffGroup, request: UpdateGroupRequest, now: Timestamp)
    ensures MergeUpdate(MergeUpdate(current, request, now), request, now) == MergeUpdate(current, request, now)
  {
  }

  /** `update` after its lookup: NotFound for an unknown id, else the merged group. */
  function Update(id: Uuid, current: Result<Option<StaffGroup>>, request: UpdateGroupRequest, now: Timestamp)
    : (r: Result<StaffGroup>)
    ensures current.Err? ==> r == Err(current.error)
    ensures current == Ok(None) ==> r == Err(IdNotFound(GroupLabel, id))
    ensures current.Ok? && current.value.Some? ==> r == Ok(MergeUpdate(current.value.value, request, now))
  {
    match current
    case Err(e) => Err(e)
    case Ok(None) => Err(IdNotFound(GroupLabel, id))
    case Ok(Some(group)) => Ok(MergeUpdate(group, request, now))
  }
}
