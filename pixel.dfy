// src/screen/pixel.rs, src/screen/pixel/checks.rs and
// src/screen/pixel/pixel_assignments.rs: one cell of the old object screen.
// A pixel holds every object that covers it, grouped by object name and
// numbered within the name, and an assignment saying which of them it shows.
module Pixels {
  import opened Wrappers
  import opened OldScreenConstants

  type Key = string

  /// The objects of one name, by assigned number (`AssignedObjects`).
  type AssignedObjects = map<nat, string>

  /// `objects_within`: a `BTreeMap` from name to its objects.
  type ObjectsWithin = map<Key, AssignedObjects>

  /// The order of Rust's `String`: character by character, a proper prefix
  /// first. A `BTreeMap` keeps its keys in this order.
  predicate KeyLe(a: Key, b: Key)
    decreases |a|
  {
    |a| == 0 || (|b| > 0 && (a[0] < b[0] || (a[0] == b[0] && KeyLe(a[1..], b[1..]))))
  }

  lemma {:induction false} KeyLeReflexive(a: Key)
    ensures KeyLe(a, a)
    decreases |a|
  {
    if |a| > 0 {
      KeyLeReflexive(a[1..]);
    }
  }

  lemma {:induction false} KeyLeTotal(a: Key, b: Key)
    ensures KeyLe(a, b) || KeyLe(b, a)
    decreases |a|
  {
    if |a| > 0 && |b| > 0 && a[0] == b[0] {
      KeyLeTotal(a[1..], b[1..]);
    }
  }

  lemma {:induction false} KeyLeAntisymmetric(a: Key, b: Key)
    requires KeyLe(a, b) && KeyLe(b, a)
    ensures a == b
    decreases |a|
  {
    if |a| > 0 {
      KeyLeAntisymmetric(a[1..], b[1..]);
      assert a == [a[0]] + a[1..] && b == [b[0]] + b[1..];
    }
  }

  lemma {:induction false} KeyLeTransitive(a: Key, b: Key, c: Key)
    requires KeyLe(a, b) && KeyLe(b, c)
    ensures KeyLe(a, c)
    decreases |a|
  {
    if |a| > 0 && a[0] == b[0] && b[0] == c[0] {
      KeyLeTransitive(a[1..], b[1..], c[1..]);
    }
  }

  lemma KeyOrderIsAntisymmetric()
    ensures forall a, b :: KeyLe(a, b) && KeyLe(b, a) ==> a == b
  {
    forall a, b | KeyLe(a, b) && KeyLe(b, a) {
      KeyLeAntisymmetric(a, b);
    }
  }

  /// `k` is the first key of `objects`.
  predicate IsFirstKey(objects: ObjectsWithin, k: Key)
  {
    k in objects && forall k' :: k' in objects ==> KeyLe(k, k')
  }

  /// `k` is the first of `keys`.
  predicate IsLeastKey(keys: set<Key>, k: Key)
  {
    k in keys && forall k' :: k' in keys ==> KeyLe(k, k')
  }

  /// Every non-empty finite set of names has a first one.
  lemma {:induction false} FirstKeyExists(keys: set<Key>)
    requires keys != {}
    ensures exists k :: IsLeastKey(keys, k)
    decreases |keys|
  {
    var x :| x in keys;
    KeyLeReflexive(x);
    if keys != {x} {
      FirstKeyExists(keys - {x});
      var m :| IsLeastKey(keys - {x}, m);
      var k := LeastWith(keys, x, m);
    } else {
      assert IsLeastKey(keys, x);
    }
  }

  /// The first of a set is the first of one of its names and the first of
  /// the others.
  lemma LeastWith(keys: set<Key>, x: Key, m: Key) returns (k: Key)
    requires x in keys && IsLeastKey(keys - {x}, m)
    ensures IsLeastKey(keys, k)
  {
    KeyLeReflexive(x);
    KeyLeTotal(x, m);
    if KeyLe(x, m) {
      forall k' | k' in keys
        ensures KeyLe(x, k')
      {
        if k' != x {
          KeyLeTransitive(x, m, k');
        }
      }
      k := x;
    } else {
      k := m;
    }
  }

  /// `BTreeMapMethods::get_first_key`: the smallest key, if any.
  function FirstKey(objects: ObjectsWithin): (r: Option<Key>)
    ensures r.None? <==> objects == map[]
    ensures r.Some? ==> IsFirstKey(objects, r.value)
  {
    if objects == map[] then None
    else
      FirstKeyExists(objects.Keys);
      KeyOrderIsAntisymmetric();
      var k :| k in objects && IsFirstKey(objects, k);
      Some(k)
  }

  /// Every non-empty set of numbers has a least one.
  lemma LowestExists(numbers: set<nat>)
    requires numbers != {}
    ensures exists n :: n in numbers && forall n' :: n' in numbers ==> n <= n'
  {
    var k :| k in numbers;
    LowestAtMost(numbers, k);
  }

  /// Descending from any member reaches the least one.
  lemma {:induction false} LowestAtMost(numbers: set<nat>, k: nat)
    requires k in numbers
    ensures exists n :: n in numbers && forall n' :: n' in numbers ==> n <= n'
    decreases k
  {
    if !forall n' :: n' in numbers ==> k <= n' {
      var j :| j in numbers && j < k;
      LowestAtMost(numbers, j);
    }
  }

  /// The lowest assigned number of a group of objects (`get_lowest_key`).
  function LowestNumber(group: AssignedObjects): (r: Option<nat>)
    ensures r.None? <==> group == map[]
    ensures r.Some? ==> r.value in group && forall n :: n in group ==> r.value <= n
  {
    if group == map[] then None
    else
      LowestExists(group.Keys);
      var n :| n in group && forall n' :: n' in group ==> n <= n';
      Some(n)
  }

  /// `(k, n)` is the first object of the pixel: first name, lowest number.
  predicate IsFirstEntry(objects: ObjectsWithin, k: Key, n: nat)
  {
    IsFirstKey(objects, k) && n in objects[k] && forall n' :: n' in objects[k] ==> n <= n'
  }

  /// The first object is determined by the pixel's contents.
  lemma FirstEntryUnique(objects: ObjectsWithin, k1: Key, n1: nat, k2: Key, n2: nat)
    requires IsFirstEntry(objects, k1, n1) && IsFirstEntry(objects, k2, n2)
    ensures k1 == k2 && n1 == n2
  {
    KeyLeAntisymmetric(k1, k2);
  }

  /// Every (name, number) pair the pixel holds.
  function Entries(objects: ObjectsWithin): set<(Key, nat)>
  {
    set k, n | k in objects && n in objects[k] :: (k, n)
  }

  /// No name is kept with an empty group: the pixel's own operations never
  /// leave one.
  predicate GroupsNonEmpty(objects: ObjectsWithin)
  {
    forall k :: k in objects ==> objects[k] != map[]
  }

  predicate Present(objects: ObjectsWithin, k: Key, n: nat)
  {
    k in objects && n in objects[k]
  }

  /// The contents after `insert_object(k, (n, d), _)`.
  function Inserted(objects: ObjectsWithin, k: Key, n: nat, d: string): ObjectsWithin
  {
    objects[k := (if k in objects then objects[k] else map[])[n := d]]
  }

  /// The contents after `remove_object(k, n, _)` of a held object: the
  /// object leaves its group, and a group of one leaves with it.
  function Removed(objects: ObjectsWithin, k: Key, n: nat): ObjectsWithin
    requires Present(objects, k, n)
  {
    if |objects[k]| > 1 then objects[k := objects[k] - {n}] else objects - {k}
  }

  /// Inserting adds exactly the one entry, with its text, and keeps every
  /// other entry's text.
  lemma InsertedEntries(objects: ObjectsWithin, k: Key, n: nat, d: string)
    ensures Entries(Inserted(objects, k, n, d)) == Entries(objects) + {(k, n)}
    ensures Inserted(objects, k, n, d)[k][n] == d
    ensures forall e :: e in Entries(objects) && e != (k, n) ==> Inserted(objects, k, n, d)[e.0][e.1] == objects[e.0][e.1]
    ensures GroupsNonEmpty(objects) ==> GroupsNonEmpty(Inserted(objects, k, n, d))
  {
    var after := Inserted(objects, k, n, d);
    forall e | e in Entries(after)
      ensures e in Entries(objects) + {(k, n)}
    {
      assert e.0 in after && e.1 in after[e.0];
      if e != (k, n) {
        assert e.0 in objects && e.1 in objects[e.0];
      }
    }
    forall e | e in Entries(objects) + {(k, n)}
      ensures e in Entries(after)
    {
      assert e.0 in after && e.1 in after[e.0];
    }
  }

  /// A held group of one is that one object.
  lemma GroupOfOne(group: AssignedObjects, n: nat)
    requires n in group && |group| <= 1
    ensures group == map[n := group[n]]
  {
    if exists m :: m in group && m != n {
      var m :| m in group && m != n;
      assert {n, m} <= group.Keys;
      assert |{n, m}| == 2;
      SubsetSize({n, m}, group.Keys);
      assert false;
    }
  }

  lemma SubsetSize<T>(a: set<T>, b: set<T>)
    requires a <= b
    ensures |a| <= |b|
  {
    assert b == a + (b - a);
  }

  /// Removing takes away exactly the one entry and keeps every other
  /// entry's text.
  lemma RemovedEntries(objects: ObjectsWithin, k: Key, n: nat)
    requires Present(objects, k, n)
    ensures Entries(Removed(objects, k, n)) == Entries(objects) - {(k, n)}
    ensures forall e :: e in Entries(Removed(objects, k, n)) ==> Removed(objects, k, n)[e.0][e.1] == objects[e.0][e.1]
    ensures GroupsNonEmpty(objects) ==> GroupsNonEmpty(Removed(objects, k, n))
  {
    if |objects[k]| <= 1 {
      GroupOfOne(objects[k], n);
      RemovedWholeGroup(objects, k, n);
    } else {
      RemovedFromGroup(objects, k, n);
    }
  }

  /// `RemovedEntries` when the object was the last of its name.
  lemma RemovedWholeGroup(objects: ObjectsWithin, k: Key, n: nat)
    requires Present(objects, k, n) && objects[k] == map[n := objects[k][n]]
    ensures Entries(Removed(objects, k, n)) == Entries(objects) - {(k, n)}
    ensures forall e :: e in Entries(Removed(objects, k, n)) ==> Removed(objects, k, n)[e.0][e.1] == objects[e.0][e.1]
    ensures GroupsNonEmpty(objects) ==> GroupsNonEmpty(Removed(objects, k, n))
  {
    var after := objects - {k};
    assert Removed(objects, k, n) == after;
    forall e | e in Entries(after)
      ensures e in Entries(objects) - {(k, n)}
    {
      assert e.0 in objects && e.1 in objects[e.0];
    }
    forall e | e in Entries(objects) - {(k, n)}
      ensures e in Entries(after)
    {
      assert e.0 in after && e.1 in after[e.0];
    }
  }

  /// `RemovedEntries` when other objects of the name remain.
  lemma RemovedFromGroup(objects: ObjectsWithin, k: Key, n: nat)
    requires Present(objects, k, n) && |objects[k]| > 1
    ensures Entries(Removed(objects, k, n)) == Entries(objects) - {(k, n)}
    ensures forall e :: e in Entries(Removed(objects, k, n)) ==> Removed(objects, k, n)[e.0][e.1] == objects[e.0][e.1]
    ensures GroupsNonEmpty(objects) ==> GroupsNonEmpty(Removed(objects, k, n))
  {
    var after := objects[k := objects[k] - {n}];
    assert Removed(objects, k, n) == after;
    if objects[k].Keys - {n} == {} {
      assert objects[k].Keys <= {n};
      SubsetSize(objects[k].Keys, {n});
      assert false;
    }
    var m :| m in objects[k].Keys - {n};
    assert m in after[k];
    forall e | e in Entries(after)
      ensures e in Entries(objects) - {(k, n)}
    {
      assert e.0 in objects && e.1 in objects[e.0];
    }
    forall e | e in Entries(objects) - {(k, n)}
      ensures e in Entries(after)
    {
      assert e.0 in after && e.1 in after[e.0];
    }
  }

  /// Removing an object just inserted restores the pixel, as long as no
  /// group was empty to begin with.
  lemma RemoveUndoesInsert(objects: ObjectsWithin, k: Key, n: nat, d: string)
    requires GroupsNonEmpty(objects) && !Present(objects, k, n)
    ensures Present(Inserted(objects, k, n, d), k, n)
    ensures Removed(Inserted(objects, k, n, d), k, n) == objects
  {
    var after := Inserted(objects, k, n, d);
    if k in objects {
      var m :| m in objects[k];
      assert {m, n} <= after[k].Keys;
      assert |{m, n}| == 2;
      SubsetSize({m, n}, after[k].Keys);
      assert after[k] - {n} == objects[k];
    } else {
      assert after[k] == map[n := d];
    }
  }

  /// Putting back an object just removed restores the pixel.
  lemma InsertUndoesRemove(objects: ObjectsWithin, k: Key, n: nat)
    requires Present(objects, k, n)
    ensures Inserted(Removed(objects, k, n), k, n, objects[k][n]) == objects
  {
    if |objects[k]| <= 1 {
      GroupOfOne(objects[k], n);
    }
    assert Inserted(Removed(objects, k, n), k, n, objects[k][n])[k] == objects[k];
  }

  /// A group holds more than one object exactly when it holds two
  /// different numbers.
  lemma MoreThanOne(group: AssignedObjects)
    ensures |group| > 1 <==> exists a, b :: a in group && b in group && a != b
  {
    if |group| > 1 {
      var a :| a in group;
      assert group.Keys - {a} != {};
      var b :| b in group.Keys - {a};
      assert a in group && b in group && a != b;
    }
    if exists a, b :: a in group && b in group && a != b {
      var a, b :| a in group && b in group && a != b;
      assert |{a, b}| == 2;
      SubsetSize({a, b}, group.Keys);
    }
  }

  /// The error of `change_display_to` for a name the pixel does not hold.
  datatype PixelError = NoObjectNamed(key: Key, pixel: nat)

  class Pixel {
    var index: nat
    var assignedDisplay: Option<Key>
    var assignedDisplayNumber: Option<nat>
    var objectsWithin: ObjectsWithin

    /// Both halves of the assignment are set together and name a held
    /// object, and no group is empty.
    predicate Valid()
      reads this
    {
      GroupsNonEmpty(objectsWithin) &&
      (assignedDisplay.Some? <==> assignedDisplayNumber.Some?) &&
      DisplayResolves()
    }

    /// A full assignment names a held object (`display` unwraps both
    /// lookups).
    predicate DisplayResolves()
      reads this
    {
      assignedDisplay.Some? && assignedDisplayNumber.Some? ==>
        Present(objectsWithin, assignedDisplay.value, assignedDisplayNumber.value)
    }

    /// A full assignment whose name is held also names a held number
    /// (`get_current_display_data` unwraps the inner lookup).
    predicate CurrentDataResolves()
      reads this
    {
      assignedDisplay.Some? && assignedDisplayNumber.Some? && assignedDisplay.value in objectsWithin ==>
        assignedDisplayNumber.value in objectsWithin[assignedDisplay.value]
    }

    /// An unassigned pixel's first group is not empty
    /// (`get_new_object_assignment` unwraps its lowest number).
    predicate NewAssignmentResolves()
      reads this
    {
      assignedDisplay.None? && FirstKey(objectsWithin).Some? ==>
        objectsWithin[FirstKey(objectsWithin).value] != map[]
    }

    /// The assignment is the pixel's first object, or nothing when the
    /// pixel is empty.
    predicate AssignedFirst()
      reads this
    {
      if objectsWithin == map[] then
        assignedDisplay.None? && assignedDisplayNumber.None?
      else
        assignedDisplay.Some? && assignedDisplayNumber.Some? &&
        IsFirstEntry(objectsWithin, assignedDisplay.value, assignedDisplayNumber.value)
    }

    /// `Pixel::new`: no assignment and no objects.
    constructor New(index: nat)
      ensures this.index == index && objectsWithin == map[]
      ensures assignedDisplay == None && assignedDisplayNumber == None
      ensures Valid()
    {
      this.index := index;
      assignedDisplay := None;
      assignedDisplayNumber := None;
      objectsWithin := map[];
    }

    // --- checks.rs ---

    /// `is_empty`: the pixel holds no names, so it has no first key.
    function IsEmpty(): (r: bool)
      reads this
      ensures r <==> FirstKey(objectsWithin).None?
      ensures r ==> Entries(objectsWithin) == {}
    {
      objectsWithin == map[]
    }

    /// `contains_object`.
    function ContainsObject(key: Key): (r: bool)
      reads this
      ensures r <==> Get(key).Some?
    {
      key in objectsWithin
    }

    /// `contains_multiple_of`: the name holds two different numbers; false
    /// for a name the pixel does not hold.
    function ContainsMultipleOf(key: Key): (r: bool)
      reads this
      ensures r ==> ContainsObject(key)
      ensures r <==>
        key in objectsWithin &&
        exists a, b :: a in objectsWithin[key] && b in objectsWithin[key] && a != b
    {
      if key in objectsWithin then
        MoreThanOne(objectsWithin[key]);
        |objectsWithin[key]| > 1
      else false
    }

    /// `assigned_key_has_multiple_objects`: false when unassigned; the
    /// source unwraps the assigned name's group.
    function AssignedKeyHasMultipleObjects(): (r: bool)
      reads this
      requires assignedDisplay.Some? ==> assignedDisplay.value in objectsWithin
      ensures r <==> assignedDisplay.Some? && ContainsMultipleOf(assignedDisplay.value)
    {
      if assignedDisplay.Some? then |objectsWithin[assignedDisplay.value]| > 1 else false
    }

    /// `has_no_assignment`: only the name half is looked at.
    function HasNoAssignment(): (r: bool)
      reads this
      ensures r ==> GetAllObjectsOfAssignedKey().None?
    {
      assignedDisplay.None?
    }

    // --- pixel_assignments.rs ---

    /// `get_both_assignments` (and the `clone_*` copies of it).
    function GetBothAssignments(): (r: (Option<Key>, Option<nat>))
      reads this
      ensures r.0 == assignedDisplay && r.1 == assignedDisplayNumber
      ensures r.0.None? <==> HasNoAssignment()
    {
      (assignedDisplay, assignedDisplayNumber)
    }

    /// `take_assigned_key`.
    method TakeAssignedKey() returns (r: Option<Key>)
      modifies this
      ensures r == old(assignedDisplay) && assignedDisplay == None
      ensures assignedDisplayNumber == old(assignedDisplayNumber)
      ensures objectsWithin == old(objectsWithin) && index == old(index)
    {
      r := assignedDisplay;
      assignedDisplay := None;
    }

    /// `take_assigned_number`.
    method TakeAssignedNumber() returns (r: Option<nat>)
      modifies this
      ensures r == old(assignedDisplayNumber) && assignedDisplayNumber == None
      ensures assignedDisplay == old(assignedDisplay)
      ensures objectsWithin == old(objectsWithin) && index == old(index)
    {
      r := assignedDisplayNumber;
      assignedDisplayNumber := None;
    }

    /// `take_both_assignments`.
    method TakeBothAssignments() returns (key: Option<Key>, number: Option<nat>)
      modifies this
      ensures key == old(assignedDisplay) && number == old(assignedDisplayNumber)
      ensures assignedDisplay == None && assignedDisplayNumber == None
      ensures objectsWithin == old(objectsWithin) && index == old(index)
    {
      key := TakeAssignedKey();
      number := TakeAssignedNumber();
    }

    // --- pixel.rs ---

    /// `get`.
    function Get(key: Key): (r: Option<AssignedObjects>)
      reads this
      ensures r.Some? ==> forall n :: n in r.value <==> (key, n) in Entries(objectsWithin)
    {
      if key in objectsWithin then Some(objectsWithin[key]) else None
    }

    /// `get_current_display_data`: the assigned name and the text of the
    /// assigned object, when both halves are set and the name is held.
    function GetCurrentDisplayData(): (r: Option<(Key, string)>)
      reads this
      requires CurrentDataResolves()
      ensures r.Some? <==> assignedDisplay.Some? && assignedDisplayNumber.Some? && ContainsObject(assignedDisplay.value)
      ensures r.Some? ==>
        r.value.0 == assignedDisplay.value &&
        (r.value.0, assignedDisplayNumber.value) in Entries(objectsWithin) &&
        r.value.1 == objectsWithin[r.value.0][assignedDisplayNumber.value]
    {
      match GetBothAssignments()
      case (Some(key), Some(number)) =>
        if ContainsObject(key) then Some((key, objectsWithin[key][number])) else None
      case _ => None
    }

    /// `display`: the assigned object's text, or the empty cell when an
    /// assignment half is missing.
    function Display(): (r: string)
      reads this
      requires DisplayResolves()
      ensures GetCurrentDisplayData().Some? ==> r == GetCurrentDisplayData().value.1
      ensures assignedDisplay.None? || assignedDisplayNumber.None? ==> r == EmptyPixel
    {
      match GetBothAssignments()
      case (Some(key), Some(number)) => objectsWithin[key][number]
      case _ => EmptyPixel
    }

    /// `get_all_objects_of_assigned_key`.
    function GetAllObjectsOfAssignedKey(): (r: Option<AssignedObjects>)
      reads this
      ensures r.Some? <==> assignedDisplay.Some? && ContainsObject(assignedDisplay.value)
      ensures r.Some? ==> r == Get(assignedDisplay.value)
    {
      if assignedDisplay.Some? && ContainsObject(assignedDisplay.value) then Get(assignedDisplay.value) else None
    }

    /// `get_latest_object_key`: despite its name, the first key in the
    /// `BTreeMap`'s order.
    function GetLatestObjectKey(): (r: Option<Key>)
      reads this
      ensures r.None? <==> IsEmpty()
      ensures r.Some? ==> IsFirstKey(objectsWithin, r.value)
    {
      FirstKey(objectsWithin)
    }

    /// `get_new_object_assignment`: for an unassigned, non-empty pixel the
    /// first name and its lowest number; otherwise nothing.
    function GetNewObjectAssignment(): (r: Option<(Key, nat)>)
      reads this
      requires NewAssignmentResolves()
      ensures r.Some? <==> HasNoAssignment() && !IsEmpty()
      ensures r.Some? ==> IsFirstEntry(objectsWithin, r.value.0, r.value.1)
    {
      if HasNoAssignment() then
        match GetLatestObjectKey()
        case Some(key) => Some((key, LowestNumber(objectsWithin[key]).value))
        case None => None
      else None
    }

    /// `change_display_to`: succeeds and sets both halves exactly when the
    /// name is held; the number is not checked.
    method ChangeDisplayTo(key: Key, number: nat) returns (r: Result<Unit, PixelError>)
      modifies this
      ensures key in old(objectsWithin) ==>
        r == Ok(Unit) && assignedDisplay == Some(key) && assignedDisplayNumber == Some(number)
      ensures key !in old(objectsWithin) ==>
        r == Err(NoObjectNamed(key, index)) &&
        assignedDisplay == old(assignedDisplay) && assignedDisplayNumber == old(assignedDisplayNumber)
      ensures objectsWithin == old(objectsWithin) && index == old(index)
    {
      if ContainsObject(key) {
        assignedDisplay, assignedDisplayNumber := Some(key), Some(number);
        r := Ok(Unit);
      } else {
        r := Err(NoObjectNamed(key, index));
      }
    }

    /// `clear_display_data`.
    method ClearDisplayData()
      modifies this
      ensures assignedDisplay == None && assignedDisplayNumber == None
      ensures objectsWithin == old(objectsWithin) && index == old(index)
    {
      assignedDisplay, assignedDisplayNumber := None, None;
    }

    /// `insert_object`: stores the object under its name, creating the
    /// group if needed; with reassignment the pixel then shows it.
    method InsertObject(key: Key, number: nat, display: string, reassign: bool)
      modifies this
      ensures objectsWithin == Inserted(old(objectsWithin), key, number, display)
      ensures reassign ==> assignedDisplay == Some(key) && assignedDisplayNumber == Some(number)
      ensures !reassign ==>
        assignedDisplay == old(assignedDisplay) && assignedDisplayNumber == old(assignedDisplayNumber)
      ensures index == old(index)
      ensures old(GroupsNonEmpty(objectsWithin)) && (reassign || old(Valid())) ==> Valid()
    {
      ghost var before := objectsWithin;
      if key in objectsWithin {
        var group: AssignedObjects := objectsWithin[key][number := display];
        objectsWithin := objectsWithin[key := group];
      } else {
        var group: AssignedObjects := map[number := display];
        objectsWithin := objectsWithin[key := group];
      }
      InsertedEntries(before, key, number, display);
      if reassign {
        var ignored := ChangeDisplayTo(key, number);
      }
    }

    /// `reassign_display_data`: an unassigned, non-empty pixel is assigned
    /// its first object; any other pixel ends unassigned.
    method ReassignDisplayData()
      modifies this
      requires NewAssignmentResolves()
      ensures objectsWithin == old(objectsWithin) && index == old(index)
      ensures old(assignedDisplay).None? ==> AssignedFirst()
      ensures old(assignedDisplay).Some? ==> assignedDisplay == None && assignedDisplayNumber == None
      ensures old(assignedDisplay).None? && GroupsNonEmpty(objectsWithin) ==> Valid()
    {
      var next := GetNewObjectAssignment();
      if next.Some? {
        var ignored := ChangeDisplayTo(next.value.0, next.value.1);
      } else {
        ClearDisplayData();
      }
    }

    /// `remove_object`: takes a held object out and returns it; a name
    /// left with no objects is dropped. Nothing changes for an object the
    /// pixel does not hold. With reassignment the pixel is then assigned
    /// its first remaining object.
    method RemoveObject(key: Key, number: nat, reassign: bool) returns (r: Option<(Key, (nat, string))>)
      modifies this
      requires reassign ==> GroupsNonEmpty(objectsWithin)
      ensures Present(old(objectsWithin), key, number) ==>
        r == Some((key, (number, old(objectsWithin)[key][number]))) &&
        objectsWithin == Removed(old(objectsWithin), key, number)
      ensures !Present(old(objectsWithin), key, number) ==>
        r == None && objectsWithin == old(objectsWithin) &&
        assignedDisplay == old(assignedDisplay) && assignedDisplayNumber == old(assignedDisplayNumber)
      ensures r.Some? && reassign ==> AssignedFirst() && Valid()
      ensures r.Some? && !reassign ==>
        assignedDisplay == old(assignedDisplay) && assignedDisplayNumber == old(assignedDisplayNumber)
      ensures index == old(index)
    {
      ghost var before := objectsWithin;
      if key in objectsWithin && number in objectsWithin[key] {
        var removed := objectsWithin[key][number];
        if ContainsMultipleOf(key) {
          var group: AssignedObjects := objectsWithin[key] - {number};
          objectsWithin := objectsWithin[key := group];
        } else {
          objectsWithin := objectsWithin - {key};
        }
        r := Some((key, (number, removed)));
        RemovedEntries(before, key, number);
      } else {
        r := None;
      }
      if r.Some? && reassign {
        ClearDisplayData();
        ReassignDisplayData();
      }
    }

    /// `remove_displayed_object`: takes the assignment, then removes the
    /// object it named if the name is held. Without reassignment the pixel
    /// ends unassigned; when nothing is removed it ends unassigned too.
    method RemoveDisplayedObject(reassign: bool) returns (r: Option<(Key, (nat, string))>)
      modifies this
      requires CurrentDataResolves()
      requires reassign ==> GroupsNonEmpty(objectsWithin)
      ensures
        var key, number := old(assignedDisplay), old(assignedDisplayNumber);
        if key.Some? && number.Some? && key.value in old(objectsWithin) then
          r == Some((key.value, (number.value, old(objectsWithin)[key.value][number.value]))) &&
          objectsWithin == Removed(old(objectsWithin), key.value, number.value) &&
          (reassign ==> AssignedFirst()) &&
          (!reassign ==> assignedDisplay == None && assignedDisplayNumber == None)
        else
          r == None && objectsWithin == old(objectsWithin) &&
          assignedDisplay == None && assignedDisplayNumber == None
      ensures old(GroupsNonEmpty(objectsWithin)) ==> Valid()
      ensures index == old(index)
    {
      ghost var before := objectsWithin;
      var key, number := TakeBothAssignments();
      if key.Some? && number.Some? && ContainsObject(key.value) {
        var removed := RemoveObject(key.value, number.value, reassign);
        if !reassign {
          ClearDisplayData();
        }
        RemovedEntries(before, key.value, number.value);
        r := Some(removed.value);
        return;
      }
      r := None;
    }
  }

  // The unit tests of tests/pixel_tests.rs.

  /// One object into an empty pixel gives one group of one.
  method InsertIntoEmptyPixel() returns (data: ObjectsWithin)
    ensures data == map["O1" := map[0 := "a"]]
  {
    var pixel := new Pixel.New(0);
    pixel.InsertObject("O1", 0, "a", false);
    data := pixel.objectsWithin;
  }

  /// Two objects of one name share a group.
  method InsertSameName() returns (data: ObjectsWithin)
    ensures data == map["O1" := map[0 := "a", 1 := "a"]]
  {
    var pixel := new Pixel.New(0);
    pixel.InsertObject("O1", 0, "a", false);
    pixel.InsertObject("O1", 1, "a", false);
    data := pixel.objectsWithin;
  }

  /// Objects of two names get a group each.
  method InsertDifferentNames() returns (data: ObjectsWithin)
    ensures data == map["O1" := map[0 := "a"], "O2" := map[0 := "b"]]
  {
    var pixel := new Pixel.New(0);
    pixel.InsertObject("O1", 0, "a", false);
    pixel.InsertObject("O2", 0, "b", false);
    data := pixel.objectsWithin;
  }

  /// Reassignment picks the first name, whatever the insertion order, and
  /// its lowest number.
  method ReassignPicksFirstName() returns (key: Option<Key>, number: Option<nat>)
    ensures key == Some("O1") && number == Some(1)
  {
    var pixel := new Pixel.New(0);
    pixel.InsertObject("O2", 0, "b", false);
    pixel.InsertObject("O1", 3, "a", false);
    pixel.InsertObject("O1", 1, "a", false);
    assert pixel.objectsWithin == map["O2" := map[0 := "b"], "O1" := map[3 := "a", 1 := "a"]];
    pixel.ReassignDisplayData();
    assert KeyLe("O1", "O2") && !KeyLe("O2", "O1");
    assert IsFirstEntry(pixel.objectsWithin, "O1", 1);
    FirstEntryUnique(pixel.objectsWithin, "O1", 1, pixel.assignedDisplay.value, pixel.assignedDisplayNumber.value);
    key, number := pixel.assignedDisplay, pixel.assignedDisplayNumber;
  }

  /// Removing the shown object without reassignment keeps the assignment,
  /// which then names nothing the pixel holds.
  method RemoveShownWithoutReassign() returns (key: Option<Key>, held: bool)
    ensures key == Some("O1") && !held
  {
    var pixel := new Pixel.New(0);
    pixel.InsertObject("O1", 0, "a", true);
    var removed := pixel.RemoveObject("O1", 0, false);
    key, held := pixel.assignedDisplay, pixel.ContainsObject("O1");
  }
}
