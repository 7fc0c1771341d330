/** A user's saved addresses: add, update, remove and set-default. */
module Addresses {
  import opened Common

  datatype Details = Details(firstName: string, lastName: string, company: Option<string>, address1: string,
                             address2: Option<string>, city: string, country: string, province: Option<string>,
                             postcode: string, phone: string)

  datatype Address = Address(id: nat, details: Details, isDefault: bool)

  datatype AddressError = AddressNotFound

  /** The list and the next sub-document id to be given out. */
  datatype Book = Book(list: seq<Address>, nextId: nat)

  datatype Op =
    | Add(details: Details, isDefault: bool)
    | Update(id: nat, details: Details, isDefault: bool)
    | Remove(id: nat)
    | SetDefault(id: nat)

  // ----- What each operation does ----------------------------------------------

  function IndexOf(list: seq<Address>, id: nat): (r: Option<nat>)
    ensures r.Some? ==> r.value < |list| && list[r.value].id == id
    ensures r.None? ==> forall a :: a in list ==> a.id != id
  {
    if list == [] then None
    else if list[0].id == id then Some(0)
    else match IndexOf(list[1..], id)
         case None => None
         case Some(k) => Some(k + 1)
  }

  function Cleared(list: seq<Address>): seq<Address> {
    seq(|list|, i requires 0 <= i < |list| => list[i].(isDefault := false))
  }

  function OnlyDefault(list: seq<Address>, id: nat): seq<Address> {
    seq(|list|, i requires 0 <= i < |list| => list[i].(isDefault := list[i].id == id))
  }

  function Without(list: seq<Address>, id: nat): seq<Address> {
    if list == [] then []
    else (if list[0].id == id then [] else [list[0]]) + Without(list[1..], id)
  }

  function Apply(b: Book, op: Op): Result<Book, AddressError> {
    match op
    case Add(details, isDefault) =>
      var makeDefault := isDefault || |b.list| == 0;
      Ok(Book((if makeDefault then Cleared(b.list) else b.list) + [Address(b.nextId, details, makeDefault)], b.nextId + 1))
    case Update(id, details, isDefault) =>
      (match IndexOf(b.list, id)
       case None => Err(AddressNotFound)
       case Some(k) =>
         var changed := b.list[k := b.list[k].(details := details)];
         Ok(b.(list := if isDefault then OnlyDefault(changed, id) else changed)))
    case Remove(id) =>
      (match IndexOf(b.list, id)
       case None => Err(AddressNotFound)
       case Some(k) =>
         var next := Without(b.list, id);
         Ok(b.(list := if b.list[k].isDefault && next != [] then next[0 := next[0].(isDefault := true)] else next)))
    case SetDefault(id) =>
      if IndexOf(b.list, id).None? then Err(AddressNotFound) else Ok(b.(list := OnlyDefault(b.list, id)))
  }

  class SavedAddresses {
    var list: seq<Address>
    var nextId: nat

    constructor ()
      ensures Contents() == Book.Book([], 0)
    {
      list, nextId := [], 0;
    }

    ghost function Contents(): Book
      reads this
    {
      Book.Book(list, nextId)
    }

    /** The `forEach` that clears every flag, or sets the one of `only`. */
    method SetFlags(only: Option<nat>)
      modifies `list
      ensures list == if only.None? then Cleared(old(list)) else OnlyDefault(old(list), only.value)
    {
      ghost var before := list;
      for i := 0 to |list|
        invariant |list| == |before|
        invariant forall k :: i <= k < |list| ==> list[k] == before[k]
        invariant forall k :: 0 <= k < i ==>
                    list[k] == before[k].(isDefault := only.Some? && before[k].id == only.value)
      {
        list := list[i := list[i].(isDefault := only.Some? && list[i].id == only.value)];
      }
    }

    method AddAddress(details: Details, isDefault: bool)
      modifies this
      ensures Apply(old(Contents()), Add(details, isDefault)) == Ok(Contents())
    {
      var makeDefault := isDefault || |list| == 0;
      if makeDefault {
        SetFlags(None);
      }
      list := list + [Address(nextId, details, makeDefault)];
      nextId := nextId + 1;
    }

    method UpdateAddress(id: nat, details: Details, isDefault: bool) returns (r: Result<(), AddressError>)
      modifies this
      ensures Apply(old(Contents()), Update(id, details, isDefault)) == if r.Ok? then Ok(Contents()) else Err(r.error)
      ensures r.Err? ==> Contents() == old(Contents())
    {
      var found := IndexOf(list, id);
      if found.None? {
        return Err(AddressNotFound);
      }
      list := list[found.value := list[found.value].(details := details)];
      if isDefault {
        SetFlags(Some(id));
      }
      return Ok(());
    }

    method RemoveAddress(id: nat) returns (r: Result<(), AddressError>)
      modifies this
      ensures Apply(old(Contents()), Remove(id)) == if r.Ok? then Ok(Contents()) else Err(r.error)
      ensures r.Err? ==> Contents() == old(Contents())
    {
      var found := IndexOf(list, id);
      if found.None? {
        return Err(AddressNotFound);
      }
      var address := list[found.value];
      var next := Without(list, id);
      if address.isDefault && next != [] {
        next := next[0 := next[0].(isDefault := true)];
      }
      list := next;
      return Ok(());
    }

    method SetDefaultAddress(id: nat) returns (r: Result<(), AddressError>)
      modifies this
      ensures Apply(old(Contents()), SetDefault(id)) == if r.Ok? then Ok(Contents()) else Err(r.error)
      ensures r.Err? ==> Contents() == old(Contents())
    {
      if IndexOf(list, id).None? {
        return Err(AddressNotFound);
      }
      SetFlags(Some(id));
      return Ok(());
    }
  }

  // ----- Exactly one default -----------------------------------------------------

  function Defaults(list: seq<Address>): nat {
    if list == [] then 0 else (if list[0].isDefault then 1 else 0) + Defaults(list[1..])
  }

  predicate UniqueBelow(list: seq<Address>, bound: nat) {
    list == [] || (list[0].id < bound && (forall a :: a in list[1..] ==> a.id != list[0].id) && UniqueBelow(list[1..], bound))
  }

  /** Unique ids, and a non-empty list has exactly one default. */
  predicate Valid(b: Book) {
    UniqueBelow(b.list, b.nextId) && (b.list != [] ==> Defaults(b.list) == 1)
  }

  /** The addresses without their flags. */
  function Bodies(list: seq<Address>): seq<(nat, Details)> {
    seq(|list|, i requires 0 <= i < |list| => (list[i].id, list[i].details))
  }

  lemma {:induction false} BodiesFixUnique(list: seq<Address>, other: seq<Address>, bound: nat)
    requires |list| == |other| && forall i :: 0 <= i < |list| ==> list[i].id == other[i].id
    requires UniqueBelow(list, bound)
    ensures UniqueBelow(other, bound)
  {
    if list != [] {
      BodiesFixUnique(list[1..], other[1..], bound);
      forall a | a in other[1..] ensures a.id != other[0].id {
        var i :| 0 <= i < |other[1..]| && other[1..][i] == a;
        assert list[1..][i] in list[1..];
      }
    }
  }

  lemma {:induction false} DefaultsConcat(a: seq<Address>, b: seq<Address>)
    ensures Defaults(a + b) == Defaults(a) + Defaults(b)
  {
    if a == [] {
      assert a + b == b;
    } else {
      assert (a + b)[1..] == a[1..] + b;
      DefaultsConcat(a[1..], b);
    }
  }

  lemma {:induction false} ClearedHasNone(list: seq<Address>)
    ensures Defaults(Cleared(list)) == 0
  {
    if list != [] {
      assert Cleared(list)[1..] == Cleared(list[1..]);
      ClearedHasNone(list[1..]);
    }
  }

  lemma {:induction false} OnlyDefaultHasOne(list: seq<Address>, id: nat, bound: nat)
    requires UniqueBelow(list, bound)
    ensures Defaults(OnlyDefault(list, id)) == if IndexOf(list, id).Some? then 1 else 0
  {
    if list != [] {
      assert OnlyDefault(list, id)[1..] == OnlyDefault(list[1..], id);
      OnlyDefaultHasOne(list[1..], id, bound);
    }
  }

  lemma {:induction false} SameFlagsSameCount(list: seq<Address>, other: seq<Address>)
    requires |list| == |other| && forall i :: 0 <= i < |list| ==> list[i].isDefault == other[i].isDefault
    ensures Defaults(list) == Defaults(other)
  {
    if list != [] {
      SameFlagsSameCount(list[1..], other[1..]);
    }
  }

  lemma {:induction false} AppendUnique(list: seq<Address>, a: Address, bound: nat)
    requires UniqueBelow(list, bound) && a.id == bound
    ensures UniqueBelow(list + [a], bound + 1)
  {
    if list == [] {
      assert list + [a] == [a];
    } else {
      assert (list + [a])[1..] == list[1..] + [a];
      AppendUnique(list[1..], a, bound);
    }
  }

  lemma {:induction false} WithoutAbsent(list: seq<Address>, id: nat)
    requires forall a :: a in list ==> a.id != id
    ensures Without(list, id) == list
  {
    if list != [] {
      assert list == [list[0]] + list[1..];
      WithoutAbsent(list[1..], id);
    }
  }

  /** Removing an id from a list of unique ids drops that one element. */
  lemma {:induction false} WithoutDropsOne(list: seq<Address>, id: nat, bound: nat)
    requires UniqueBelow(list, bound) && IndexOf(list, id).Some?
    ensures var k := IndexOf(list, id).value;
            && Without(list, id) == list[..k] + list[k + 1..]
            && Defaults(list) == Defaults(Without(list, id)) + (if list[k].isDefault then 1 else 0)
  {
    assert list == [list[0]] + list[1..];
    if list[0].id == id {
      WithoutAbsent(list[1..], id);
      assert Without(list, id) == list[1..];
    } else {
      WithoutDropsOne(list[1..], id, bound);
      assert Without(list, id)[1..] == Without(list[1..], id);
    }
  }

  lemma {:induction false} WithoutKeepsUnique(list: seq<Address>, id: nat, bound: nat)
    requires UniqueBelow(list, bound)
    ensures UniqueBelow(Without(list, id), bound)
    ensures forall a :: a in Without(list, id) ==> a in list
  {
    if list != [] {
      WithoutKeepsUnique(list[1..], id, bound);
      assert list[0].id == id ==> Without(list, id) == Without(list[1..], id);
      assert list[0].id != id ==> Without(list, id)[1..] == Without(list[1..], id);
    }
  }

  lemma AddKeepsValid(b: Book, details: Details, isDefault: bool)
    requires Valid(b)
    ensures Valid(Apply(b, Add(details, isDefault)).value)
  {
    var makeDefault := isDefault || |b.list| == 0;
    var kept := if makeDefault then Cleared(b.list) else b.list;
    var a := Address(b.nextId, details, makeDefault);
    ClearedHasNone(b.list);
    BodiesFixUnique(b.list, kept, b.nextId);
    AppendUnique(kept, a, b.nextId);
    DefaultsConcat(kept, [a]);
    assert Defaults([a]) == (if makeDefault then 1 else 0) + Defaults([]);
  }

  lemma RemoveKeepsValid(b: Book, id: nat)
    requires Valid(b) && Apply(b, Remove(id)).Ok?
    ensures Valid(Apply(b, Remove(id)).value)
  {
    var next, r := Without(b.list, id), Apply(b, Remove(id)).value.list;
    WithoutDropsOne(b.list, id, b.nextId);
    WithoutKeepsUnique(b.list, id, b.nextId);
    if r != next {
      BodiesFixUnique(next, r, b.nextId);
      assert r[1..] == next[1..];
    }
  }

  lemma FlagsKeepValid(b: Book, op: Op)
    requires Valid(b) && Apply(b, op).Ok? && (op.Update? || op.SetDefault?)
    ensures Valid(Apply(b, op).value)
  {
    var k := IndexOf(b.list, op.id).value;
    var changed := if op.Update? then b.list[k := b.list[k].(details := op.details)] else b.list;
    BodiesFixUnique(b.list, changed, b.nextId);
    SameFlagsSameCount(b.list, changed);
    BodiesFixUnique(changed, OnlyDefault(changed, op.id), b.nextId);
    OnlyDefaultHasOne(changed, op.id, b.nextId);
    assert changed[k] in changed && changed[k].id == op.id;
  }

  lemma ApplyKeepsValid(b: Book, op: Op)
    requires Valid(b) && Apply(b, op).Ok?
    ensures Valid(Apply(b, op).value)
  {
    match op {
      case Add(details, isDefault) => AddKeepsValid(b, details, isDefault);
      case Remove(id) => RemoveKeepsValid(b, id);
      case _ => FlagsKeepValid(b, op);
    }
  }

  /** Failed operations change nothing. */
  function Run(b: Book, ops: seq<Op>): Book
    decreases |ops|
  {
    if ops == [] then b
    else Run(match Apply(b, ops[0]) case Ok(next) => next case Err(_) => b, ops[1..])
  }

  /** Over any run, a non-empty list has exactly one default address. */
  lemma {:induction false} OneDefaultOverRuns(b: Book, ops: seq<Op>)
    requires Valid(b)
    ensures Valid(Run(b, ops))
    decreases |ops|
  {
    if ops != [] {
      if Apply(b, ops[0]).Ok? {
        ApplyKeepsValid(b, ops[0]);
        OneDefaultOverRuns(Apply(b, ops[0]).value, ops[1..]);
      } else {
        OneDefaultOverRuns(b, ops[1..]);
      }
    }
  }

  /** Only the addressed entry is touched, and the order is kept. */
  lemma BodiesPreserved(b: Book, op: Op)
    requires Valid(b) && Apply(b, op).Ok?
    ensures var after, before := Bodies(Apply(b, op).value.list), Bodies(b.list);
            match op
            case Add(details, _) => after == before + [(b.nextId, details)]
            case Update(id, details, _) => after == before[IndexOf(b.list, id).value := (id, details)]
            case Remove(id) => var k := IndexOf(b.list, id).value; after == before[..k] + before[k + 1..]
            case SetDefault(_) => after == before
  {
    if op.Remove? {
      WithoutDropsOne(b.list, op.id, b.nextId);
      var k, next := IndexOf(b.list, op.id).value, Without(b.list, op.id);
      assert Bodies(Apply(b, op).value.list) == Bodies(next);
      assert Bodies(next) == Bodies(b.list)[..k] + Bodies(b.list)[k + 1..];
    }
  }

  /** Which address is the default afterwards. */
  lemma WhichIsDefault(b: Book, op: Op)
    requires Valid(b) && Apply(b, op).Ok?
    ensures forall a :: a in Apply(b, op).value.list ==>
              (a.isDefault <==>
               match op
               case Add(_, isDefault) =>
                 if isDefault || b.list == [] then a.id == b.nextId else a in b.list && a.isDefault
               case Update(id, _, isDefault) =>
                 if isDefault then a.id == id else exists k :: 0 <= k < |b.list| && b.list[k].id == a.id && b.list[k].isDefault
               case Remove(id) =>
                 if b.list[IndexOf(b.list, id).value].isDefault then a == Apply(b, op).value.list[0] else a in b.list && a.isDefault
               case SetDefault(id) => a.id == id)
  {
    var r := Apply(b, op).value.list;
    match op {
      case Add(details, isDefault) =>
        UniqueAgainstBound(b.list, b.nextId);
      case Update(id, details, isDefault) =>
        if !isDefault {
          forall a | a in r && exists k :: 0 <= k < |b.list| && b.list[k].id == a.id && b.list[k].isDefault
            ensures a.isDefault
          {
            var k :| 0 <= k < |b.list| && b.list[k].id == a.id && b.list[k].isDefault;
            var j :| 0 <= j < |r| && r[j] == a;
            UniqueIndex(b.list, b.nextId, j, k);
          }
        }
      case Remove(id) =>
        WithoutDropsOne(b.list, id, b.nextId);
        WithoutKeepsUnique(b.list, id, b.nextId);
        var next := Without(b.list, id);
        if b.list[IndexOf(b.list, id).value].isDefault {
          NoDefaultInside(next);
          if next != [] {
            forall a | a in r && a != r[0] ensures !a.isDefault {
              assert r[1..] == next[1..];
            }
          }
        }
      case SetDefault(id) =>
    }
  }

  lemma {:induction false} UniqueAgainstBound(list: seq<Address>, bound: nat)
    requires UniqueBelow(list, bound)
    ensures forall a :: a in list ==> a.id < bound
  {
    if list != [] {
      UniqueAgainstBound(list[1..], bound);
    }
  }

  lemma {:induction false} UniqueIndex(list: seq<Address>, bound: nat, i: nat, j: nat)
    requires UniqueBelow(list, bound) && i < |list| && j < |list| && list[i].id == list[j].id
    ensures i == j
  {
    forall k | 0 < k < |list| ensures list[k].id != list[0].id {
      assert list[1..][k - 1] == list[k];
    }
    if i > 0 && j > 0 {
      UniqueIndex(list[1..], bound, i - 1, j - 1);
    }
  }

  lemma {:induction false} NoDefaultInside(list: seq<Address>)
    requires Defaults(list) == 0
    ensures forall a :: a in list ==> !a.isDefault
  {
    if list != [] {
      NoDefaultInside(list[1..]);
    }
  }
}
