/**
 * The group service's member resolution: the requested group and all its
 * descendants, the memberships of each of them, the distinct staff ids among
 * those memberships, the staff records for these ids, and of the records the
 * Active ones ordered by name. The three repository fetches are inputs: the
 * descendant ids, the memberships of a group, and the staff records for a
 * list of ids.
 */
module GroupService {
  import opened Types
  import opened Sorting
  import opened StaffDirectory

  /**
   * `try_join_all` over the groups' membership fetches: all memberships,
   * group after group, or the error of the first group whose fetch failed.
   */
  function JoinAll(groupIds: seq<Uuid>, membershipsOf: Uuid -> Result<seq<GroupMembership>>)
    : Result<seq<GroupMembership>>
  {
    if groupIds == [] then Ok([])
    else
      match JoinAll(groupIds[..|groupIds| - 1], membershipsOf)
      case Err(e) => Err(e)
      case Ok(earlier) =>
        match membershipsOf(groupIds[|groupIds| - 1])
        case Err(e) => Err(e)
        case Ok(ms) => Ok(earlier + ms)
  }

  /** The join succeeds exactly when every group's fetch succeeds. */
  lemma {:induction false} JoinAllOk(groupIds: seq<Uuid>, membershipsOf: Uuid -> Result<seq<GroupMembership>>)
    ensures JoinAll(groupIds, membershipsOf).Ok? <==> forall i :: 0 <= i < |groupIds| ==> membershipsOf(groupIds[i]).Ok?
  {
    if groupIds != [] {
      var init := groupIds[..|groupIds| - 1];
      JoinAllOk(init, membershipsOf);
      assert forall i :: 0 <= i < |init| ==> init[i] == groupIds[i];
    }
  }

  /** A failed join reports the error of the first group whose fetch failed. */
  lemma {:induction false} JoinAllFirstError(groupIds: seq<Uuid>, membershipsOf: Uuid -> Result<seq<GroupMembership>>, i: nat)
    requires i < |groupIds| && membershipsOf(groupIds[i]).Err?
    requires forall j :: 0 <= j < i ==> membershipsOf(groupIds[j]).Ok?
    ensures JoinAll(groupIds, membershipsOf) == Err(membershipsOf(groupIds[i]).error)
  {
    var init := groupIds[..|groupIds| - 1];
    if i < |init| {
      assert init[i] == groupIds[i];
      assert forall j :: 0 <= j < i ==> init[j] == groupIds[j];
      JoinAllFirstError(init, membershipsOf, i);
    } else {
      JoinAllOk(init, membershipsOf);
      assert forall j :: 0 <= j < |init| ==> init[j] == groupIds[j];
    }
  }

  /** A joined membership is one that some group's fetch returned. */
  lemma {:induction false} JoinAllMembers(groupIds: seq<Uuid>, membershipsOf: Uuid -> Result<seq<GroupMembership>>,
                                          m: GroupMembership)
    requires JoinAll(groupIds, membershipsOf).Ok?
    ensures m in JoinAll(groupIds, membershipsOf).value <==>
              exists i :: 0 <= i < |groupIds| && membershipsOf(groupIds[i]).Ok? && m in membershipsOf(groupIds[i]).value
  {
    if groupIds != [] {
      var init := groupIds[..|groupIds| - 1];
      var last := groupIds[|groupIds| - 1];
      JoinAllMembers(init, membershipsOf, m);
      if m in membershipsOf(last).value {
        assert membershipsOf(groupIds[|groupIds| - 1]).Ok?;
      }
      if exists i :: 0 <= i < |groupIds| && membershipsOf(groupIds[i]).Ok? && m in membershipsOf(groupIds[i]).value {
        var i :| 0 <= i < |groupIds| && membershipsOf(groupIds[i]).Ok? && m in membershipsOf(groupIds[i]).value;
        if i < |init| {
          assert init[i] == groupIds[i];
        }
      }
      if exists i :: 0 <= i < |init| && membershipsOf(init[i]).Ok? && m in membershipsOf(init[i]).value {
        var i :| 0 <= i < |init| && membershipsOf(init[i]).Ok? && m in membershipsOf(init[i]).value;
        assert init[i] == groupIds[i];
      }
    }
  }

  /** The staff id of each membership, in order. */
  function MemberIds(ms: seq<GroupMembership>): (ids: seq<Uuid>)
    ensures |ids| == |ms| && forall i :: 0 <= i < |ms| ==> ids[i] == ms[i].staffId
  {
    if ms == [] then [] else MemberIds(ms[..|ms| - 1]) + [ms[|ms| - 1].staffId]
  }

  /** The elements of a `HashSet`, each once, in an order the set does not fix. */
  method SetToSeq(s: set<Uuid>) returns (r: seq<Uuid>)
    ensures Distinct(r) && Elements(r) == s
  {
    r := [];
    var remaining := s;
    while remaining != {}
      invariant Distinct(r)
      invariant Elements(r) + remaining == s
      invariant forall x :: x in r ==> x !in remaining
      decreases |remaining|
    {
      var x :| x in remaining;
      DistinctSnoc(r, x);
      r := r + [x];
      remaining := remaining - {x};
    }
  }

  /** The Active records of `all`, each as often as it occurs there, in non-decreasing name order. */
  ghost predicate ActiveByName(all: seq<Staff>, result: seq<Staff>)
  {
    multiset(result) == multiset(HavingStatus(all, Active)) && SortedBy(result, NameLe)
  }

  /** Exactly the Active records of `all` are in an `ActiveByName` result. */
  lemma ActiveByNameMembers(all: seq<Staff>, result: seq<Staff>)
    requires ActiveByName(all, result)
    ensures forall s :: s in result <==> s in all && s.status == Active
  {
    HavingStatusMembers(all, Active);
    forall s ensures s in result <==> s in HavingStatus(all, Active) {
      assert s in result <==> s in multiset(result);
      assert s in HavingStatus(all, Active) <==> s in multiset(HavingStatus(all, Active));
    }
  }

  /**
   * The Active staff of a group and all its subgroups, by name. Any fetch
   * error ends the resolution with that error. Otherwise the staff records
   * are asked for `queried`: each staff id of the fetched memberships once.
   */
  method GetResolvedMembers(groupId: Uuid, descendants: Result<seq<Uuid>>,
                            membershipsOf: Uuid -> Result<seq<GroupMembership>>,
                            findByIds: seq<Uuid> -> Result<seq<Staff>>)
    returns (r: Result<seq<Staff>>, ghost queried: seq<Uuid>)
    ensures descendants.Err? ==> r == Err(descendants.error)
    ensures descendants.Ok? && JoinAll([groupId] + descendants.value, membershipsOf).Err? ==>
              r == Err(JoinAll([groupId] + descendants.value, membershipsOf).error)
    ensures descendants.Ok? && JoinAll([groupId] + descendants.value, membershipsOf).Ok? ==>
              var ms := JoinAll([groupId] + descendants.value, membershipsOf).value;
              Distinct(queried) && Elements(queried) == Elements(MemberIds(ms)) &&
              (findByIds(queried).Err? ==> r == Err(findByIds(queried).error)) &&
              (findByIds(queried).Ok? ==> r.Ok? && ActiveByName(findByIds(queried).value, r.value))
  {
    queried := [];
    if descendants.Err? {
      return Err(descendants.error), queried;
    }
    var groupIds := [groupId] + descendants.value;
    var joined := JoinAll(groupIds, membershipsOf);
    if joined.Err? {
      return Err(joined.error), queried;
    }
    var staffIds := SetToSeq(Elements(MemberIds(joined.value)));
    queried := staffIds;
    var fetched := findByIds(staffIds);
    if fetched.Err? {
      return Err(fetched.error), queried;
    }
    var activeStaff := HavingStatus(fetched.value, Active);
    NameLeTotal();
    SortSorted(activeStaff, NameLe);
    r := Ok(InsertionSort(activeStaff, NameLe));
  }
}
