/**
 * The schedule under construction, `HashMap<Uuid, HashMap<NaiveDate,
 * ShiftType>>`: for every staff member, the shift chosen on each date.
 * Both schedulers and every rule read it through the functions here.
 */
module Plan {
  import opened Types

  type Plan = map<Uuid, map<Date, Shift>>

  /** The shift of `staff` on `date`, if one was chosen. */
  function ShiftOf(p: Plan, staff: Uuid, date: Date): Option<Shift>
  {
    if staff in p && date in p[staff] then Some(p[staff][date]) else None
  }

  /**
   * `entry(staff).or_default().insert(date, shift)`: records the shift and
   * changes nothing else.
   */
  function Assign(p: Plan, staff: Uuid, date: Date, shift: Shift): (q: Plan)
    ensures ShiftOf(q, staff, date) == Some(shift)
    ensures forall s, d :: (s != staff || d != date) ==> ShiftOf(q, s, d) == ShiftOf(p, s, d)
    ensures q.Keys == p.Keys + {staff}
  {
    p[staff := (if staff in p then p[staff] else map[])[date := shift]]
  }

  /** The staff members listed in `staff`. */
  function Members(staff: seq<Uuid>): (r: set<Uuid>)
    ensures forall s :: s in r <==> s in staff
  {
    set s | s in staff
  }

  /** Assigns `shift` on `date` to each of `staff`, in order. */
  function AssignAll(p: Plan, staff: seq<Uuid>, date: Date, shift: Shift): (q: Plan)
    ensures forall s, d :: ShiftOf(q, s, d) == if d == date && s in staff then Some(shift) else ShiftOf(p, s, d)
    ensures q.Keys == p.Keys + Members(staff)
  {
    if staff == [] then p
    else
      var init := staff[..|staff| - 1];
      assert staff == init + [staff[|staff| - 1]];
      Assign(AssignAll(p, init, date, shift), staff[|staff| - 1], date, shift)
  }

  /** Assigning to one more staff member at the end is one more `Assign`. */
  lemma AssignAllSnoc(p: Plan, staff: seq<Uuid>, last: Uuid, date: Date, shift: Shift)
    ensures AssignAll(p, staff + [last], date, shift) == Assign(AssignAll(p, staff, date, shift), last, date, shift)
  {
    var more := staff + [last];
    assert more[..|more| - 1] == staff && more[|more| - 1] == last;
  }

  // ---------------------------------------------------------- days off

  /** How many of the `k` dates from `from` on are days off for `staff`. */
  function DaysOffIn(p: Plan, staff: Uuid, from: Date, k: nat): nat
  {
    if k == 0 then 0
    else DaysOffIn(p, staff, from, k - 1) + (if ShiftOf(p, staff, from + k - 1) == Some(DayOff) then 1 else 0)
  }

  /** Days off of `staff` in the Monday-to-Sunday week starting `weekStart`. */
  function DaysOffInWeek(p: Plan, staff: Uuid, weekStart: Date): nat
  {
    DaysOffIn(p, staff, weekStart, 7)
  }

  lemma {:induction false} DaysOffBounded(p: Plan, staff: Uuid, from: Date, k: nat)
    ensures DaysOffIn(p, staff, from, k) <= k
  {
    if k > 0 {
      DaysOffBounded(p, staff, from, k - 1);
    }
  }

  /** The count depends only on the shifts of `staff` inside the window. */
  lemma {:induction false} DaysOffLocal(p: Plan, q: Plan, staff: Uuid, other: Uuid, from: Date, k: nat)
    requires forall d :: from <= d < from + k ==> ShiftOf(p, staff, d) == ShiftOf(q, other, d)
    ensures DaysOffIn(p, staff, from, k) == DaysOffIn(q, other, from, k)
  {
    if k > 0 {
      DaysOffLocal(p, q, staff, other, from, k - 1);
    }
  }

  /** If every day off in `p` is also one in `q`, `q` has at least as many. */
  lemma {:induction false} DaysOffMonotone(p: Plan, q: Plan, staff: Uuid, from: Date, k: nat)
    requires forall d :: from <= d < from + k && ShiftOf(p, staff, d) == Some(DayOff) ==> ShiftOf(q, staff, d) == Some(DayOff)
    ensures DaysOffIn(p, staff, from, k) <= DaysOffIn(q, staff, from, k)
  {
    if k > 0 {
      DaysOffMonotone(p, q, staff, from, k - 1);
    }
  }

  /** Recording a day off inside an empty slot of the window adds exactly one. */
  lemma {:induction false} DaysOffAfterAssign(p: Plan, staff: Uuid, from: Date, k: nat, date: Date, shift: Shift)
    requires from <= date < from + k && ShiftOf(p, staff, date) == None
    ensures DaysOffIn(Assign(p, staff, date, shift), staff, from, k)
         == DaysOffIn(p, staff, from, k) + (if shift == DayOff then 1 else 0)
  {
    var q := Assign(p, staff, date, shift);
    if date == from + k - 1 {
      DaysOffLocal(p, q, staff, staff, from, k - 1);
    } else {
      DaysOffAfterAssign(p, staff, from, k - 1, date, shift);
    }
  }

  // ---------------------------------------------------------- head counts

  /** The staff members among `among` who work `shift` on `date`. */
  function HoldersAmong(p: Plan, among: set<Uuid>, date: Date, shift: Shift): (r: set<Uuid>)
    ensures forall s :: s in r <==> s in among && ShiftOf(p, s, date) == Some(shift)
  {
    set s | s in among && s in p && date in p[s] && p[s][date] == shift
  }

  /** How many staff members work `shift` on `date`. */
  function Headcount(p: Plan, date: Date, shift: Shift): nat
  {
    |HoldersAmong(p, p.Keys, date, shift)|
  }

  /** The staff members who have any shift on `date`. */
  function StaffedOn(p: Plan, date: Date): (r: set<Uuid>)
    ensures forall s :: s in r <==> ShiftOf(p, s, date).Some?
  {
    set s | s in p && date in p[s]
  }

  /** The three head counts of a date partition the staff scheduled on it. */
  lemma HeadcountsPartition(p: Plan, date: Date)
    ensures Headcount(p, date, Morning) + Headcount(p, date, Evening) + Headcount(p, date, DayOff) == |StaffedOn(p, date)|
  {
    var m := HoldersAmong(p, p.Keys, date, Morning);
    var e := HoldersAmong(p, p.Keys, date, Evening);
    var o := HoldersAmong(p, p.Keys, date, DayOff);
    assert StaffedOn(p, date) == m + e + o;
    assert m * e == {} && (m + e) * o == {};
    assert |m + e| == |m| + |e|;
    assert |m + e + o| == |m + e| + |o|;
  }

  lemma HeadcountAmongAdd(p: Plan, among: set<Uuid>, staff: Uuid, date: Date, shift: Shift)
    requires staff !in among
    ensures |HoldersAmong(p, among + {staff}, date, shift)|
         == |HoldersAmong(p, among, date, shift)| + (if ShiftOf(p, staff, date) == Some(shift) then 1 else 0)
  {
    var before := HoldersAmong(p, among, date, shift);
    var after := HoldersAmong(p, among + {staff}, date, shift);
    if ShiftOf(p, staff, date) == Some(shift) {
      assert after == before + {staff};
    } else {
      assert after == before;
    }
  }

  /** Recording a shift in an empty slot adds one to its head count and changes no other. */
  lemma HeadcountAfterAssign(p: Plan, staff: Uuid, date: Date, shift: Shift, x: Shift)
    requires ShiftOf(p, staff, date) == None
    ensures Headcount(Assign(p, staff, date, shift), date, x) == Headcount(p, date, x) + (if shift == x then 1 else 0)
  {
    HoldersAfterAssign(p, staff, date, shift, x);
    assert staff !in HoldersAmong(p, p.Keys, date, x);
  }

  lemma HoldersAfterAssign(p: Plan, staff: Uuid, date: Date, shift: Shift, x: Shift)
    requires ShiftOf(p, staff, date) == None
    ensures var q := Assign(p, staff, date, shift);
            HoldersAmong(q, q.Keys, date, x) == HoldersAmong(p, p.Keys, date, x) + (if shift == x then {staff} else {})
  {
    var q := Assign(p, staff, date, shift);
    forall s ensures s in HoldersAmong(q, q.Keys, date, x) <==> s in HoldersAmong(p, p.Keys, date, x) + (if shift == x then {staff} else {}) {
      assert s in q.Keys <==> s in p.Keys || s == staff;
    }
  }

  // ---------------------------------------------------------- mirror image

  function SwapShift(x: Shift): Shift
  {
    match x
    case Morning => Evening
    case Evening => Morning
    case DayOff => DayOff
  }

  /** The same schedule with every morning and evening exchanged. */
  function SwapShifts(p: Plan): (q: Plan)
    ensures q.Keys == p.Keys
    ensures forall s, d :: ShiftOf(q, s, d) == if ShiftOf(p, s, d).Some? then Some(SwapShift(ShiftOf(p, s, d).value)) else None
  {
    map s | s in p :: map d | d in p[s] :: SwapShift(p[s][d])
  }

  lemma HeadcountOfSwapped(p: Plan, date: Date, shift: Shift)
    ensures Headcount(SwapShifts(p), date, shift) == Headcount(p, date, SwapShift(shift))
  {
    var q := SwapShifts(p);
    assert HoldersAmong(q, q.Keys, date, shift) == HoldersAmong(p, p.Keys, date, SwapShift(shift));
  }
}
