/**
 * The data service's records: staff members, staff groups (a forest through
 * `parentId`), memberships, the requests that create and change them, and
 * the list operations several components share: filtering by status,
 * ordering by name, and cutting a page.
 */
module StaffDirectory {
  import opened Types
  import opened Sorting

  datatype Staff = Staff(
    id: Uuid,
    name: string,
    email: string,
    position: string,
    status: StaffStatus,
    createdAt: Timestamp,
    updatedAt: Timestamp)

  datatype StaffGroup = StaffGroup(
    id: Uuid,
    name: string,
    parentId: Option<Uuid>,
    createdAt: Timestamp,
    updatedAt: Timestamp)

  datatype GroupMembership = GroupMembership(id: Uuid, staffId: Uuid, groupId: Uuid, createdAt: Timestamp)

  /** A group together with the staff found in it. */
  datatype GroupWithMembers = GroupWithMembers(group: StaffGroup, members: seq<Staff>)

  datatype CreateStaffRequest = CreateStaffRequest(name: string, email: string, position: string, status: Option<StaffStatus>)

  datatype UpdateStaffRequest = UpdateStaffRequest(
    name: Option<string>,
    email: Option<string>,
    position: Option<string>,
    status: Option<StaffStatus>)

  datatype CreateGroupRequest = CreateGroupRequest(name: string, parentId: Option<Uuid>)

  datatype UpdateGroupRequest = UpdateGroupRequest(name: Option<string>, parentId: Option<Uuid>)

  /** One-based page number and page size, both `u32` in the service. */
  datatype PaginationParams = PaginationParams(page: nat, pageSize: nat)

  // ------------------------------------------------------------ status filter

  /** The staff members of a list that have the given status, in list order. */
  function HavingStatus(staff: seq<Staff>, status: StaffStatus): (r: seq<Staff>)
    ensures |r| <= |staff|
    ensures forall i :: 0 <= i < |r| ==> r[i].status == status
  {
    if staff == [] then []
    else
      var init, last := staff[..|staff| - 1], staff[|staff| - 1];
      HavingStatus(init, status) + (if last.status == status then [last] else [])
  }

  /** Filtering keeps exactly the members with the status, each as often as it occurs. */
  lemma {:induction false} HavingStatusCounts(staff: seq<Staff>, status: StaffStatus)
    ensures forall s :: multiset(HavingStatus(staff, status))[s] == if s.status == status then multiset(staff)[s] else 0
  {
    if staff != [] {
      var init, last := staff[..|staff| - 1], staff[|staff| - 1];
      HavingStatusCounts(init, status);
      assert staff == init + [last];
      assert multiset(staff) == multiset(init) + multiset{last};
    }
  }

  lemma HavingStatusMembers(staff: seq<Staff>, status: StaffStatus)
    ensures forall s :: s in HavingStatus(staff, status) <==> s in staff && s.status == status
  {
    HavingStatusCounts(staff, status);
    forall s ensures s in HavingStatus(staff, status) <==> s in staff && s.status == status {
      assert s in HavingStatus(staff, status) <==> s in multiset(HavingStatus(staff, status));
      assert s in staff <==> s in multiset(staff);
    }
  }

  // --------------------------------------------------------------- name order

  /** Rust's `cmp` on the names: byte-wise lexicographic. */
  function NameLe(a: Staff, b: Staff): bool
  {
    LexLe(a.name, b.name)
  }

  lemma NameLeTotal()
    ensures TotalPreorder(NameLe)
  {
    forall a: Staff, b: Staff ensures NameLe(a, b) || NameLe(b, a) {
      LexLeTotal(a.name, b.name);
    }
    forall a: Staff, b: Staff, c: Staff | NameLe(a, b) && NameLe(b, c) ensures NameLe(a, c) {
      LexLeTransitive(a.name, b.name, c.name);
    }
  }

  // --------------------------------------------------------------- pagination

  /** `skip(offset).take(size)`: the elements from `offset` on, at most `size` of them. */
  function SkipTake<T>(all: seq<T>, offset: nat, size: nat): (r: seq<T>)
    ensures |r| == if offset >= |all| then 0 else if |all| - offset < size then |all| - offset else size
    ensures forall i :: 0 <= i < |r| ==> r[i] == all[offset + i]
  {
    if offset >= |all| then []
    else if |all| - offset < size then all[offset..]
    else all[offset..offset + size]
  }

  /** The first element a page shows: `(page - 1) * page_size`. */
  function PageOffset(params: PaginationParams): nat
    requires params.page >= 1
  {
    (params.page - 1) * params.pageSize
  }

  /** A page of a listing, and the size of the whole listing. */
  function Paginate<T>(all: seq<T>, params: PaginationParams): (r: (seq<T>, nat))
    requires params.page >= 1
    ensures r.1 == |all|
    ensures |r.0| == Min(params.pageSize, Max(0, |all| - PageOffset(params)))
    ensures forall i :: 0 <= i < |r.0| ==> r.0[i] == all[PageOffset(params) + i]
  {
    (SkipTake(all, PageOffset(params), params.pageSize), |all|)
  }

  /** The largest `u32`. */
  const U32Max: nat := 0xFFFF_FFFF

  /**
   * The offset as the in-memory stores compute it, in `u32` arithmetic:
   * None where `page - 1` underflows (page 0) or the product exceeds `u32`,
   * both of which panic.
   */
  function CheckedPageOffset(params: PaginationParams): (r: Option<nat>)
    ensures r.None? <==> params.page == 0 || (params.page - 1) * params.pageSize > U32Max
    ensures r.Some? ==> r.value == PageOffset(params) && r.value <= U32Max
  {
    if params.page == 0 then None
    else if (params.page - 1) * params.pageSize > U32Max then None
    else Some(PageOffset(params))
  }

  /** A page of a listing with its total, or None where computing the offset panics. */
  function ListPage<T>(all: seq<T>, params: PaginationParams): (r: Option<(seq<T>, nat)>)
    ensures r.None? <==> CheckedPageOffset(params).None?
    ensures r.Some? ==> r.value == Paginate(all, params)
  {
    match CheckedPageOffset(params)
    case None => None
    case Some(_) => Some(Paginate(all, params))
  }

  function Min(a: int, b: int): int
  {
    if a <= b then a else b
  }

  function Max(a: int, b: int): int
  {
    if a >= b then a else b
  }

  /** Three staff members, first page of two: two are shown, three are counted. */
  lemma FirstPageOfTwo<T>(all: seq<T>)
    requires |all| == 3
    ensures Paginate(all, PaginationParams(1, 2)).0 == all[..2] && Paginate(all, PaginationParams(1, 2)).1 == 3
  {
    assert PageOffset(PaginationParams(1, 2)) == 0;
  }
}
