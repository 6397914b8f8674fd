/**
 * The data service's in-memory stores: staff and groups keyed by id,
 * memberships as a list. They stand for the store contract the service's
 * handlers rely on. Listing a map goes through its values in an order the
 * map does not fix, as `HashMap::values` does.
 */
module DataStores {
  import opened Types
  import opened Sorting
  import opened Text
  import opened StaffDirectory
  import GroupRepository

  /** How the staff store names a missing staff member in its `NotFound` message. */
  const StaffLabel: string := "Staff with id "

  const MembershipNotFound: DomainError := NotFound("Membership not found")

  // ------------------------------------------------------------ map listings

  /** `all` lists the values of `m`, the one under `keys[i]` at position `i`, every key once. */
  ghost predicate ValuesListing<V>(m: map<Uuid, V>, keys: seq<Uuid>, all: seq<V>)
  {
    Distinct(keys) && Elements(keys) == m.Keys && |all| == |keys| &&
    forall i :: 0 <= i < |keys| ==> keys[i] in m && all[i] == m[keys[i]]
  }

  /** The values of a map, once per key, in an order the map does not fix. */
  method MapValues<V>(m: map<Uuid, V>) returns (all: seq<V>, ghost keys: seq<Uuid>)
    ensures ValuesListing(m, keys, all)
  {
    all := [];
    keys := [];
    var remaining := m.Keys;
    while remaining != {}
      invariant PartialListing(m, keys, all, remaining)
      decreases |remaining|
    {
      var k :| k in remaining;
      PartialListingStep(m, keys, all, remaining, k);
      keys := keys + [k];
      all := all + [m[k]];
      remaining := remaining - {k};
    }
  }

  /** The keys listed so far, with their values, and the keys still to come. */
  ghost predicate PartialListing<V>(m: map<Uuid, V>, keys: seq<Uuid>, all: seq<V>, remaining: set<Uuid>)
  {
    Distinct(keys) && |all| == |keys| &&
    (forall i :: 0 <= i < |keys| ==> keys[i] in m && all[i] == m[keys[i]]) &&
    Elements(keys) + remaining == m.Keys &&
    forall k :: k in keys ==> k !in remaining
  }

  /** Listing one more key keeps the listing partial, and one key shorter to go. */
  lemma PartialListingStep<V>(m: map<Uuid, V>, keys: seq<Uuid>, all: seq<V>, remaining: set<Uuid>, k: Uuid)
    requires PartialListing(m, keys, all, remaining) && k in remaining
    ensures PartialListing(m, keys + [k], all + [m[k]], remaining - {k})
  {
    DistinctSnoc(keys, k);
    assert Elements(keys + [k]) == Elements(keys) + {k};
  }

  /** A listing has one element per key. */
  lemma ListingSize<V>(m: map<Uuid, V>, keys: seq<Uuid>, all: seq<V>)
    requires ValuesListing(m, keys, all)
    ensures |all| == |m|
  {
    DistinctSize(keys);
    assert |m| == |m.Keys|;
  }

  /** Where a key's value stands in a listing. */
  lemma ListedAt<V>(m: map<Uuid, V>, keys: seq<Uuid>, all: seq<V>, k: Uuid) returns (j: nat)
    requires ValuesListing(m, keys, all) && k in m
    ensures j < |all| && keys[j] == k && all[j] == m[k]
  {
    assert k in Elements(keys);
    j :| 0 <= j < |keys| && keys[j] == k;
  }

  /** The keys of `ks` whose staff member in `m` has the status. */
  function WithStatus(ks: set<Uuid>, m: map<Uuid, Staff>, status: StaffStatus): set<Uuid>
  {
    set k | k in ks && k in m && m[k].status == status
  }

  /** Filtering a listing by status keeps one element per key with that status. */
  lemma {:induction false} FilteredCount(m: map<Uuid, Staff>, keys: seq<Uuid>, all: seq<Staff>, status: StaffStatus)
    requires Distinct(keys) && |all| == |keys|
    requires forall i :: 0 <= i < |keys| ==> keys[i] in m && all[i] == m[keys[i]]
    ensures |HavingStatus(all, status)| == |WithStatus(Elements(keys), m, status)|
  {
    if keys != [] {
      var init, last := keys[..|keys| - 1], keys[|keys| - 1];
      var allInit := all[..|all| - 1];
      DistinctPrefix(keys);
      assert forall i :: 0 <= i < |init| ==> init[i] == keys[i] && allInit[i] == all[i];
      FilteredCount(m, init, allInit, status);
      LastIsNew(keys);
      WithStatusAdd(Elements(init), last, m, status);
      assert Elements(keys) == Elements(init) + {last} by {
        assert keys == init + [last];
      }
    }
  }

  lemma DistinctPrefix(keys: seq<Uuid>)
    requires Distinct(keys) && keys != []
    ensures Distinct(keys[..|keys| - 1])
  {
    var init := keys[..|keys| - 1];
    forall i, j | 0 <= i < j < |init| ensures init[i] != init[j] {
      assert init[i] == keys[i] && init[j] == keys[j];
    }
  }

  lemma LastIsNew(keys: seq<Uuid>)
    requires Distinct(keys) && keys != []
    ensures keys[|keys| - 1] !in Elements(keys[..|keys| - 1])
  {
    var init := keys[..|keys| - 1];
    forall i | 0 <= i < |init| ensures init[i] != keys[|keys| - 1] {
      assert init[i] == keys[i];
    }
  }

  lemma WithStatusAdd(ks: set<Uuid>, x: Uuid, m: map<Uuid, Staff>, status: StaffStatus)
    requires x !in ks && x in m
    ensures |WithStatus(ks + {x}, m, status)| == |WithStatus(ks, m, status)| + if m[x].status == status then 1 else 0
  {
    if m[x].status == status {
      assert WithStatus(ks + {x}, m, status) == WithStatus(ks, m, status) + {x};
    } else {
      assert WithStatus(ks + {x}, m, status) == WithStatus(ks, m, status);
    }
  }

  // -------------------------------------------------------------- staff store

  /** A created staff member: the request's fields, Active when no status is given. */
  function NewStaff(request: CreateStaffRequest, id: Uuid, now: Timestamp): (s: Staff)
    ensures s.id == id && s.name == request.name && s.email == request.email && s.position == request.position
    ensures s.status == if request.status.Some? then request.status.value else Active
    ensures s.createdAt == now && s.updatedAt == now
  {
    Staff(id, request.name, request.email, request.position, request.status.GetOr(Active), now, now)
  }

  /** A staff member after an update: each field given is overwritten, the others are kept. */
  function MergeStaff(current: Staff, request: UpdateStaffRequest, now: Timestamp): (s: Staff)
    ensures s.id == current.id && s.createdAt == current.createdAt && s.updatedAt == now
    ensures s.name == if request.name.Some? then request.name.value else current.name
    ensures s.email == if request.email.Some? then request.email.value else current.email
    ensures s.position == if request.position.Some? then request.position.value else current.position
    ensures s.status == if request.status.Some? then request.status.value else current.status
  {
    current.(name := request.name.GetOr(current.name), email := request.email.GetOr(current.email),
             position := request.position.GetOr(current.position), status := request.status.GetOr(current.status),
             updatedAt := now)
  }

  /** An update that gives no field only moves the update time. */
  lemma EmptyStaffUpdate(current: Staff, now: Timestamp)
    ensures MergeStaff(current, UpdateStaffRequest(None, None, None, None), now) == current.(updatedAt := now)
  {
  }

  class StaffStore {
    var staff: map<Uuid, Staff>

    constructor ()
      ensures staff == map[]
    {
      staff := map[];
    }

    /** Stores a new staff member under the fresh id `newId`. */
    method Create(request: CreateStaffRequest, newId: Uuid, now: Timestamp) returns (r: Result<Staff>)
      modifies this
      ensures r == Ok(NewStaff(request, newId, now))
      ensures staff == old(staff)[newId := r.value]
      ensures FindById(newId) == Ok(Some(r.value))
    {
      var s := NewStaff(request, newId, now);
      staff := staff[newId := s];
      r := Ok(s);
    }

    function FindById(id: Uuid): (r: Result<Option<Staff>>)
      reads this
      ensures r.Ok? && (r.value.Some? <==> id in staff)
      ensures r.value.Some? ==> r.value.value == staff[id]
    {
      if id in staff then Ok(Some(staff[id])) else Ok(None)
    }

    /** Some staff member with the email, if there is one; which one is left to the listing order. */
    method FindByEmail(email: string) returns (r: Result<Option<Staff>>)
      ensures r.Ok?
      ensures r.value.None? <==> forall k :: k in staff ==> staff[k].email != email
      ensures r.value.Some? ==> r.value.value in staff.Values && r.value.value.email == email
    {
      var all, keys := MapValues(staff);
      var i := 0;
      while i < |all| && all[i].email != email
        invariant 0 <= i <= |all|
        invariant forall j :: 0 <= j < i ==> all[j].email != email
      {
        i := i + 1;
      }
      if i == |all| {
        forall k | k in staff ensures staff[k].email != email {
          var j := ListedAt(staff, keys, all, k);
        }
        return Ok(None);
      }
      assert all[i] == staff[keys[i]];
      r := Ok(Some(all[i]));
    }

    /**
     * A page of all staff, with the number of staff stored; None where the
     * offset arithmetic panics.
     */
    method List(params: PaginationParams) returns (r: Option<(seq<Staff>, nat)>, ghost listing: seq<Staff>)
      ensures exists keys :: ValuesListing(staff, keys, listing)
      ensures r == ListPage(listing, params)
      ensures r.None? <==> params.page == 0 || (params.page - 1) * params.pageSize > U32Max
      ensures r.Some? ==> r.value.1 == |staff|
    {
      var all;
      ghost var keys;
      all, keys := MapValues(staff);
      ListingSize(staff, keys, all);
      listing := all;
      r := ListPage(all, params);
    }

    /**
     * A page of the staff with the status, with the number of such staff;
     * None where the offset arithmetic panics.
     */
    method ListByStatus(status: StaffStatus, params: PaginationParams)
      returns (r: Option<(seq<Staff>, nat)>, ghost listing: seq<Staff>)
      ensures exists keys :: ValuesListing(staff, keys, listing)
      ensures r == ListPage(HavingStatus(listing, status), params)
      ensures r.None? <==> params.page == 0 || (params.page - 1) * params.pageSize > U32Max
      ensures r.Some? ==> r.value.1 == |WithStatus(staff.Keys, staff, status)|
      ensures r.Some? ==> forall s :: s in r.value.0 ==> s in staff.Values && s.status == status
    {
      var all;
      ghost var keys;
      all, keys := MapValues(staff);
      listing := all;
      var filtered := HavingStatus(all, status);
      FilteredCount(staff, keys, all, status);
      HavingStatusMembers(all, status);
      r := ListPage(filtered, params);
      if r.Some? {
        forall s | s in r.value.0 ensures s in staff.Values && s.status == status {
          var i :| 0 <= i < |r.value.0| && r.value.0[i] == s;
          assert s in filtered;
          var j :| 0 <= j < |all| && all[j] == s;
          assert staff[keys[j]] == s;
        }
      }
    }

    /** Overwrites the fields the request gives; NotFound for an unknown id. */
    method Update(id: Uuid, request: UpdateStaffRequest, now: Timestamp) returns (r: Result<Staff>)
      modifies this
      ensures id !in old(staff) ==> r == Err(IdNotFound(StaffLabel, id)) && staff == old(staff)
      ensures id in old(staff) ==>
                r == Ok(MergeStaff(old(staff)[id], request, now)) && staff == old(staff)[id := r.value]
    {
      if id !in staff {
        return Err(IdNotFound(StaffLabel, id));
      }
      var updated := MergeStaff(staff[id], request, now);
      staff := staff[id := updated];
      r := Ok(updated);
    }

    /** Removes the staff member; NotFound for an unknown id. */
    method Delete(id: Uuid) returns (r: Outcome)
      modifies this
      ensures id !in old(staff) ==> r == Fail(IdNotFound(StaffLabel, id)) && staff == old(staff)
      ensures id in old(staff) ==> r == Pass && staff == old(staff) - {id}
      ensures FindById(id) == Ok(None)
    {
      if id !in staff {
        return Fail(IdNotFound(StaffLabel, id));
      }
      staff := staff - {id};
      r := Pass;
    }

    /** Every Active staff member, whatever the group: the stores do not relate staff to groups. */
    method FindByGroupId(groupId: Uuid) returns (r: Result<seq<Staff>>, ghost listing: seq<Staff>)
      ensures exists keys :: ValuesListing(staff, keys, listing)
      ensures r == Ok(HavingStatus(listing, Active))
      ensures forall s :: s in r.value <==> s in staff.Values && s.status == Active
    {
      var all;
      ghost var keys;
      all, keys := MapValues(staff);
      listing := all;
      HavingStatusMembers(all, Active);
      forall s ensures s in all <==> s in staff.Values {
        if s in staff.Values {
          var k :| k in staff && staff[k] == s;
          var j := ListedAt(staff, keys, all, k);
        }
        if s in all {
          var j :| 0 <= j < |all| && all[j] == s;
          assert staff[keys[j]] == s;
        }
      }
      r := Ok(HavingStatus(all, Active));
    }
  }

  /** The staff fixture: a Developer, Active. */
  function SampleStaff(id: Uuid, name: string, email: string, now: Timestamp): (s: Staff)
    ensures s.id == id && s.name == name && s.email == email
    ensures s.position == "Developer" && s.status == Active && s.createdAt == now && s.updatedAt == now
  {
    Staff(id, name, email, "Developer", Active, now, now)
  }

  // -------------------------------------------------------------- group store

  function NewGroup(request: CreateGroupRequest, id: Uuid, now: Timestamp): (g: StaffGroup)
    ensures g.id == id && g.name == request.name && g.parentId == request.parentId
    ensures g.createdAt == now && g.updatedAt == now
  {
    StaffGroup(id, request.name, request.parentId, now, now)
  }

  class GroupStore {
    var groups: map<Uuid, StaffGroup>

    constructor ()
      ensures groups == map[]
    {
      groups := map[];
    }

    /** Stores a new group under the fresh id `newId`. */
    method Create(request: CreateGroupRequest, newId: Uuid, now: Timestamp) returns (r: Result<StaffGroup>)
      modifies this
      ensures r == Ok(NewGroup(request, newId, now))
      ensures groups == old(groups)[newId := r.value]
      ensures FindById(newId) == Ok(Some(r.value))
    {
      var g := NewGroup(request, newId, now);
      groups := groups[newId := g];
      r := Ok(g);
    }

    function FindById(id: Uuid): (r: Result<Option<StaffGroup>>)
      reads this
      ensures r.Ok? && (r.value.Some? <==> id in groups)
      ensures r.value.Some? ==> r.value.value == groups[id]
    {
      if id in groups then Ok(Some(groups[id])) else Ok(None)
    }

    /** Some group with the name, if there is one; which one is left to the listing order. */
    method FindByName(name: string) returns (r: Result<Option<StaffGroup>>)
      ensures r.Ok?
      ensures r.value.None? <==> forall k :: k in groups ==> groups[k].name != name
      ensures r.value.Some? ==> r.value.value in groups.Values && r.value.value.name == name
    {
      var all, keys := MapValues(groups);
      var i := 0;
      while i < |all| && all[i].name != name
        invariant 0 <= i <= |all|
        invariant forall j :: 0 <= j < i ==> all[j].name != name
      {
        i := i + 1;
      }
      if i == |all| {
        forall k | k in groups ensures groups[k].name != name {
          var j := ListedAt(groups, keys, all, k);
        }
        return Ok(None);
      }
      assert all[i] == groups[keys[i]];
      r := Ok(Some(all[i]));
    }

    /** A page of all groups, with the number of groups; None where the offset arithmetic panics. */
    method List(params: PaginationParams) returns (r: Option<(seq<StaffGroup>, nat)>, ghost listing: seq<StaffGroup>)
      ensures exists keys :: ValuesListing(groups, keys, listing)
      ensures r == ListPage(listing, params)
      ensures r.None? <==> params.page == 0 || (params.page - 1) * params.pageSize > U32Max
      ensures r.Some? ==> r.value.1 == |groups|
    {
      var all;
      ghost var keys;
      all, keys := MapValues(groups);
      ListingSize(groups, keys, all);
      listing := all;
      r := ListPage(all, params);
    }

    /**
     * Renames when a name is given and re-parents when a parent is given,
     * the same rule as the database store's; NotFound for an unknown id.
     */
    method Update(id: Uuid, request: UpdateGroupRequest, now: Timestamp) returns (r: Result<StaffGroup>)
      modifies this
      ensures id !in old(groups) ==> r == Err(IdNotFound(GroupRepository.GroupLabel, id)) && groups == old(groups)
      ensures id in old(groups) ==>
                r == Ok(GroupRepository.MergeUpdate(old(groups)[id], request, now)) && groups == old(groups)[id := r.value]
    {
      if id !in groups {
        return Err(IdNotFound(GroupRepository.GroupLabel, id));
      }
      var group := groups[id];
      if request.name.Some? {
        group := group.(name := request.name.value);
      }
      if request.parentId.Some? {
        group := group.(parentId := Some(request.parentId.value));
      }
      group := group.(updatedAt := now);
      groups := groups[id := group];
      r := Ok(group);
    }

    /** Removes the group; NotFound for an unknown id. */
    method Delete(id: Uuid) returns (r: Outcome)
      modifies this
      ensures id !in old(groups) ==> r == Fail(IdNotFound(GroupRepository.GroupLabel, id)) && groups == old(groups)
      ensures id in old(groups) ==> r == Pass && groups == old(groups) - {id}
      ensures FindById(id) == Ok(None)
    {
      if id !in groups {
        return Fail(IdNotFound(GroupRepository.GroupLabel, id));
      }
      groups := groups - {id};
      r := Pass;
    }

    /** The group alone, without members and with a count of 0; NotFound for an unknown group. */
    function GetResolvedMembers(groupId: Uuid): (r: Result<(seq<GroupWithMembers>, nat)>)
      reads this
      ensures r.Err? <==> groupId !in groups
      ensures r.Err? ==> r.error == IdNotFound(GroupRepository.GroupLabel, groupId)
      ensures r.Ok? ==> r.value == ([GroupWithMembers(groups[groupId], [])], 0)
    {
      if groupId in groups then Ok(([GroupWithMembers(groups[groupId], [])], 0))
      else Err(IdNotFound(GroupRepository.GroupLabel, groupId))
    }
  }

  /** The group fixture. */
  function SampleGroup(id: Uuid, name: string, parentId: Option<Uuid>, now: Timestamp): (g: StaffGroup)
    ensures g.id == id && g.name == name && g.parentId == parentId && g.createdAt == now && g.updatedAt == now
  {
    StaffGroup(id, name, parentId, now, now)
  }

  // --------------------------------------------------------- membership store

  /** Whether a membership ties that staff member to that group. */
  predicate Ties(m: GroupMembership, staffId: Uuid, groupId: Uuid)
  {
    m.staffId == staffId && m.groupId == groupId
  }

  /** `retain`: the memberships that do not tie the staff member to the group, in order. */
  function Retained(ms: seq<GroupMembership>, staffId: Uuid, groupId: Uuid): seq<GroupMembership>
  {
    if ms == [] then []
    else
      var last := ms[|ms| - 1];
      Retained(ms[..|ms| - 1], staffId, groupId) + (if Ties(last, staffId, groupId) then [] else [last])
  }

  /** Retaining keeps every other membership, as often as it occurs, and drops every tying one. */
  lemma {:induction false} RetainedCounts(ms: seq<GroupMembership>, staffId: Uuid, groupId: Uuid)
    ensures forall m :: multiset(Retained(ms, staffId, groupId))[m] ==
                          if Ties(m, staffId, groupId) then 0 else multiset(ms)[m]
  {
    if ms != [] {
      var init, last := ms[..|ms| - 1], ms[|ms| - 1];
      RetainedCounts(init, staffId, groupId);
      assert ms == init + [last];
      assert multiset(ms) == multiset(init) + multiset{last};
    }
  }

  /** Nothing is dropped exactly when no membership ties the staff member to the group. */
  lemma {:induction false} RetainedKeepsAll(ms: seq<GroupMembership>, staffId: Uuid, groupId: Uuid)
    ensures |Retained(ms, staffId, groupId)| <= |ms|
    ensures |Retained(ms, staffId, groupId)| == |ms| <==> forall i :: 0 <= i < |ms| ==> !Ties(ms[i], staffId, groupId)
  {
    if ms != [] {
      var init := ms[..|ms| - 1];
      RetainedKeepsAll(init, staffId, groupId);
      assert forall i :: 0 <= i < |init| ==> init[i] == ms[i];
    }
  }

  class MembershipStore {
    var memberships: seq<GroupMembership>

    constructor ()
      ensures memberships == []
    {
      memberships := [];
    }

    /** Records a membership under the fresh id `newId`. */
    method AddMember(staffId: Uuid, groupId: Uuid, newId: Uuid, now: Timestamp) returns (r: Result<GroupMembership>)
      modifies this
      ensures r == Ok(GroupMembership(newId, staffId, groupId, now))
      ensures memberships == old(memberships) + [r.value]
    {
      var membership := GroupMembership(newId, staffId, groupId, now);
      memberships := memberships + [membership];
      r := Ok(membership);
    }

    /**
     * Drops every membership tying the staff member to the group; NotFound
     * when there was none, in which case nothing changes.
     */
    method RemoveMember(staffId: Uuid, groupId: Uuid) returns (r: Outcome)
      modifies this
      ensures memberships == Retained(old(memberships), staffId, groupId)
      ensures r.Fail? <==> forall i :: 0 <= i < |old(memberships)| ==> !Ties(old(memberships)[i], staffId, groupId)
      ensures r.Fail? ==> r.error == MembershipNotFound && memberships == old(memberships)
    {
      var initialLen := |memberships|;
      var kept := [];
      for k := 0 to |memberships|
        invariant kept == Retained(memberships[..k], staffId, groupId)
      {
        assert memberships[..k + 1][..k] == memberships[..k];
        if !Ties(memberships[k], staffId, groupId) {
          kept := kept + [memberships[k]];
        }
      }
      assert memberships[..|memberships|] == memberships;
      RetainedKeepsAll(memberships, staffId, groupId);
      if |kept| == initialLen {
        RetainedSame(memberships, staffId, groupId);
        r := Fail(MembershipNotFound);
      } else {
        r := Pass;
      }
      memberships := kept;
    }
  }

  /** When nothing ties, retaining gives back the list itself. */
  lemma {:induction false} RetainedSame(ms: seq<GroupMembership>, staffId: Uuid, groupId: Uuid)
    requires forall i :: 0 <= i < |ms| ==> !Ties(ms[i], staffId, groupId)
    ensures Retained(ms, staffId, groupId) == ms
  {
    if ms != [] {
      var init := ms[..|ms| - 1];
      assert forall i :: 0 <= i < |init| ==> init[i] == ms[i];
      RetainedSame(init, staffId, groupId);
    }
  }
}
