/** The process-wide catalogue `cars`: a dictionary from integer id to car
    record that keeps its keys in insertion order, and the handlers that
    read and change it. */
module CarStore {
  import opened Results
  import opened CarModel
  import opened Listing

  /** The path parameter of the lookup page must satisfy 0 <= key < MaxKey. */
  const MaxKey: int := 1000

  predicate NoDuplicates(s: seq<int>) {
    forall i, j :: 0 <= i < j < |s| ==> s[i] != s[j]
  }

  /** `id` is the smallest id at or above `start` that `cars` does not use. */
  predicate FirstFreeFrom(cars: map<int, Car>, start: int, id: int) {
    && id >= start
    && id !in cars
    && forall k :: start <= k < id ==> k in cars
  }

  /** `list(cars.items())`: the (id, record) pairs in key order `order`. */
  function Entries(order: seq<int>, cars: map<int, Car>): (r: seq<(int, Car)>)
    requires forall i :: 0 <= i < |order| ==> order[i] in cars
    ensures |r| == |order|
    ensures forall i :: 0 <= i < |order| ==> r[i] == (order[i], cars[order[i]])
  {
    if order == [] then []
    else
      var last := order[|order| - 1];
      Entries(order[..|order| - 1], cars) + [(last, cars[last])]
  }

  /** The key order after `del cars[x]`: every key but `x`, in the order
      they had. */
  function Without(s: seq<int>, x: int): (r: seq<int>)
    ensures forall y :: y in r <==> y in s && y != x
    ensures x !in s ==> r == s
  {
    if s == [] then []
    else if s[0] == x then Without(s[1..], x)
    else [s[0]] + Without(s[1..], x)
  }

  /** Storing a record under a new key appends one pair to the items and
      leaves every earlier pair as it was. */
  lemma EntriesAppend(order: seq<int>, cars: map<int, Car>, id: int, c: Car)
    requires forall i :: 0 <= i < |order| ==> order[i] in cars
    requires id !in order
    ensures Entries(order + [id], cars[id := c]) == Entries(order, cars) + [(id, c)]
  {
  }

  /** On an order without duplicates, deleting a present key cuts exactly
      that key out: the keys before it and after it keep their places, and
      the order still has no duplicates. */
  lemma {:induction false} WithoutCutsOne(s: seq<int>, x: int) returns (i: nat)
    requires NoDuplicates(s) && x in s
    ensures i < |s| && s[i] == x
    ensures Without(s, x) == s[..i] + s[i + 1..]
    ensures NoDuplicates(Without(s, x))
  {
    var head, tail := s[0], s[1..];
    assert s == [head] + tail;
    assert NoDuplicates(tail) by {
      forall a, b | 0 <= a < b < |tail|
        ensures tail[a] != tail[b]
      {
        assert tail[a] == s[a + 1] && tail[b] == s[b + 1];
      }
    }
    assert head !in tail by {
      forall a | 0 <= a < |tail|
        ensures tail[a] != head
      {
        assert tail[a] == s[a + 1];
      }
    }
    if head == x {
      assert Without(tail, x) == tail;
      i := 0;
    } else {
      var rest := Without(tail, x);
      var j := WithoutCutsOne(tail, x);
      i := j + 1;
      assert Without(s, x) == [head] + rest;
      assert s[..i] == [head] + tail[..j];
      assert s[i + 1..] == tail[j + 1..];
      assert head !in rest;
    }
  }

  /** An insertion order without duplicates has one entry per key. */
  lemma {:induction false} OrderCountsKeys(order: seq<int>, keys: set<int>)
    requires NoDuplicates(order)
    requires forall k :: k in keys <==> k in order
    ensures |order| == |keys|
  {
    if order != [] {
      var last := order[|order| - 1];
      var front := order[..|order| - 1];
      assert order == front + [last];
      assert last !in front;
      var smaller := keys - {last};
      assert forall k :: k in order <==> k in front || k == last;
      OrderCountsKeys(front, smaller);
      assert last in keys && last !in smaller;
      assert keys == smaller + {last};
      assert |keys| == |smaller| + 1;
    } else {
      assert forall k :: k !in keys;
      assert keys == {};
    }
  }

  class Store {
    /** The records, by id. */
    var cars: map<int, Car>
    /** The ids in the dictionary's iteration (insertion) order. */
    var order: seq<int>

    /** The order lists every key exactly once. */
    ghost predicate Valid()
      reads this
    {
      NoDuplicates(order) && forall k :: k in cars <==> k in order
    }

    /** Every stored record has a year the `Car` model accepts. The initial
        contents are not assumed to satisfy this; the handlers keep it. */
    ghost predicate AllWellFormed()
      reads this
    {
      forall k :: k in cars ==> WellFormed(cars[k])
    }

    /** The catalogue as the server starts with it: any records, in any order. */
    constructor (initialOrder: seq<int>, initialCars: map<int, Car>)
      requires NoDuplicates(initialOrder)
      requires forall k :: k in initialCars <==> k in initialOrder
      ensures Valid()
      ensures cars == initialCars && order == initialOrder
    {
      cars := initialCars;
      order := initialOrder;
    }

    /** `list(cars.items())`. */
    function Items(): (r: seq<(int, Car)>)
      reads this
      requires Valid()
      ensures |r| == |order| == |cars|
      ensures forall i :: 0 <= i < |order| ==> order[i] in cars && r[i] == (order[i], cars[order[i]])
    {
      OrderCountsKeys(order, cars.Keys);
      Entries(order, cars)
    }

    /** `cars.get(key)`. */
    function Get(key: int): (r: Option<Car>)
      reads this
      ensures r.Some? <==> key in cars
      ensures r.Some? ==> r.value == cars[key]
    {
      if key in cars then Some(cars[key]) else None
    }

    /** `get_car_by_id`: the key must lie in [0, MaxKey); the page then shows
        the record, or reports that there is none. */
    function GetCarById(key: int): (r: Result<Car>)
      reads this
      ensures !(0 <= key < MaxKey) ==> r == Err(RequestRejected)
      ensures 0 <= key < MaxKey ==> (r.Ok? <==> key in cars)
      ensures 0 <= key < MaxKey && key !in cars ==> r == Err(NotFound)
      ensures r.Ok? ==> key in cars && r.value == cars[key]
    {
      if !(0 <= key < MaxKey) then Err(RequestRejected)
      else
        match Get(key)
        case None => Err(NotFound)
        case Some(c) => Ok(c)
    }

    /** The id probe of `create_car`: start at `len(cars) + minId` and step
        up while the candidate is taken. The result is the smallest free id
        at or above the start. */
    method AllocateId(minId: int) returns (id: int)
      ensures id >= |cars| + minId
      ensures id !in cars
      ensures forall k :: |cars| + minId <= k < id ==> k in cars
    {
      id := |cars| + minId;
      while id in cars
        invariant id >= |cars| + minId
        invariant forall k :: |cars| + minId <= k < id ==> k in cars
        decreases |set k | k in cars && k >= id|
      {
        ghost var above := set k | k in cars && k >= id;
        assert (set k | k in cars && k >= id + 1) == above - {id};
        id := id + 1;
      }
    }

    /** `create_car`: build the record from the form fields (all passed by
        keyword), then store it under a fresh id at the end of the order. */
    method CreateCar(make: Option<string>, model: Option<string>, year: Option<int>,
                     price: Option<Price>, engine: Option<string>,
                     autonomous: Option<bool>, sold: Option<seq<string>>,
                     minId: int) returns (r: Result<int>)
      requires Valid()
      modifies this
      ensures Valid()
      ensures r.Ok? <==> year.Some? && YearInRange(year.value)
      ensures r.Err? ==> r.error == InvalidRecord && cars == old(cars) && order == old(order)
      ensures r.Ok? ==>
        && FirstFreeFrom(old(cars), old(|cars|) + minId, r.value)
        && cars == old(cars)[r.value := Car(make, model, year.value, price, engine, autonomous, sold)]
        && order == old(order) + [r.value]
        && |cars| == old(|cars|) + 1
      ensures old(AllWellFormed()) ==> AllWellFormed()
    {
      var args := AllPassed(make, model, year, price, engine, autonomous, sold);
      var built := NewCar(args);
      if built.Err? {
        return Err(built.error);
      }
      SameFields(built.value, Car(make, model, year.value, price, engine, autonomous, sold));
      var id := AllocateId(minId);
      cars := cars[id := built.value];
      order := order + [id];
      r := Ok(id);
    }

    /** `change_info`: the stored record is passed back through the `Car`
        model, the payload (every field passed by keyword) becomes the
        update set, and the merge is stored under the same id, which keeps
        its place in the order. */
    method ChangeInfo(id: int, make: Option<string>, model: Option<string>, year: Option<int>,
                      price: Option<Price>, engine: Option<string>,
                      autonomous: Option<bool>, sold: Option<seq<string>>) returns (r: Result<Car>)
      requires Valid()
      modifies this
      ensures Valid()
      ensures order == old(order)
      ensures id !in old(cars) ==> r == Err(NotFound)
      ensures r.Ok? <==> id in old(cars) && WellFormed(old(cars)[id]) && year.Some? && YearInRange(year.value)
      ensures r.Err? ==> cars == old(cars)
      ensures r.Err? && id in old(cars) ==> r.error == InvalidRecord
      ensures r.Ok? ==>
        && r.value == Car(make, model, year.value, price, engine, autonomous, sold)
        && cars == old(cars)[id := r.value]
      ensures old(AllWellFormed()) ==> AllWellFormed()
    {
      var current := Get(id);
      if current.None? {
        return Err(NotFound);
      }
      var stored := NewCar(ArgsOf(current.value));
      RebuildStored(current.value);
      if stored.Err? {
        return Err(stored.error);
      }
      var args := AllPassed(make, model, year, price, engine, autonomous, sold);
      var car := NewCar(args);
      if car.Err? {
        return Err(car.error);
      }
      var merged := Merge(stored.value, UpdateSet(args, car.value));
      UpdateOverwritesEveryField(stored.value, args);
      SameFields(car.value, Car(make, model, year.value, price, engine, autonomous, sold));
      cars := cars[id := merged];
      r := Ok(merged);
    }

    /** `delete_car_from_frontend`: removes the record if there is one. */
    method DeleteCarFromFrontend(id: int) returns (r: Result<()>)
      requires Valid()
      modifies this
      ensures Valid()
      ensures r.Ok? <==> id in old(cars)
      ensures r.Err? ==> r.error == NotFound && cars == old(cars) && order == old(order)
      ensures r.Ok? ==> cars == old(cars) - {id} && order == Without(old(order), id) && |cars| == old(|cars|) - 1
      ensures old(AllWellFormed()) ==> AllWellFormed()
    {
      if Get(id).None? {
        return Err(NotFound);
      }
      var _ := WithoutCutsOne(order, id);
      cars := cars - {id};
      order := Without(order, id);
      r := Ok(());
    }

    /** `delete_car`: passes the stored record through the `Car` model to
        report it, then removes it. */
    method DeleteCar(id: int) returns (r: Result<Car>)
      requires Valid()
      modifies this
      ensures Valid()
      ensures r.Ok? <==> id in old(cars) && WellFormed(old(cars)[id])
      ensures r.Err? ==> cars == old(cars) && order == old(order)
      ensures r.Err? ==> r.error == if id in old(cars) then InvalidRecord else NotFound
      ensures r.Ok? ==>
        && r.value == old(cars)[id]
        && cars == old(cars) - {id}
        && order == Without(old(order), id)
        && |cars| == old(|cars|) - 1
      ensures old(AllWellFormed()) ==> AllWellFormed()
    {
      var stored := Get(id);
      if stored.None? {
        return Err(NotFound);
      }
      var deleted := NewCar(ArgsOf(stored.value));
      RebuildStored(stored.value);
      if deleted.Err? {
        return Err(deleted.error);
      }
      var _ := WithoutCutsOne(order, id);
      cars := cars - {id};
      order := Without(order, id);
      r := Ok(deleted.value);
    }

    /** `get_cars`: copies the first pairs of `list(cars.items())`, as many
        as `number` asks for, into the response. */
    method GetCars(number: string) returns (r: Result<seq<(int, Car)>>)
      requires Valid()
      ensures r == ListPrefix(Items(), number)
    {
      if |number| > MaxNumberLength {
        return Err(RequestRejected);
      }
      var parsed := ParseInt(number);
      if parsed.Err? {
        return Err(parsed.error);
      }
      var stop := SliceStop(|order|, parsed.value);
      var response: seq<(int, Car)> := [];
      var i := 0;
      while i < stop
        invariant 0 <= i <= stop
        invariant response == Items()[..i]
      {
        var key := order[i];
        response := response + [(key, cars[key])];
        i := i + 1;
      }
      r := Ok(response);
    }
  }

  /** A test fixture: a record with a year and the default engine. */
  function Sample(year: int): Car {
    Car(None, None, year, None, Some(DefaultEngine), None, None)
  }

  /** When the start of the probe is free, the probe returns the start; when
      only the start is taken, it returns the next id. */
  lemma ProbeResult(cars: map<int, Car>, start: int, id: int)
    requires FirstFreeFrom(cars, start, id)
    ensures start !in cars ==> id == start
    ensures start in cars && start + 1 !in cars ==> id == start + 1
  {
  }

  /** Three creates on an empty catalogue with `minId` 0 receive ids 0, 1
      and 2, in that order. */
  method SequentialIds() returns (ids: seq<int>)
    ensures ids == [0, 1, 2]
  {
    var store := new Store([], map[]);
    var a := store.CreateCar(None, None, Some(2000), None, Some(DefaultEngine), None, None, 0);
    ProbeResult(map[], 0, a.value);
    ghost var first := store.cars;
    assert first.Keys == {0};
    var b := store.CreateCar(None, None, Some(2001), None, Some(DefaultEngine), None, None, 0);
    ProbeResult(first, 1, b.value);
    ghost var second := store.cars;
    assert second.Keys == {0, 1};
    var c := store.CreateCar(None, None, Some(2002), None, Some(DefaultEngine), None, None, 0);
    ProbeResult(second, 2, c.value);
    ids := [a.value, b.value, c.value];
  }

  /** A catalogue holding ids 0, 1 and 2 (as three creates on an empty
      catalogue leave it) from which id 1 has been deleted. */
  method ThreeLessOne() returns (store: Store)
    ensures fresh(store) && store.Valid()
    ensures store.cars.Keys == {0, 2} && |store.cars| == 2
  {
    var initial := map[0 := Sample(2000), 1 := Sample(2001), 2 := Sample(2002)];
    assert initial.Keys == {0, 1, 2};
    store := new Store([0, 1, 2], initial);
    var gone := store.DeleteCarFromFrontend(1);
    assert store.cars.Keys == {0, 2};
  }

  /** With ids 0, 1 and 2 stored and 1 deleted, the probe starts at
      `len(cars)` = 2, finds it taken and hands out 3: the freed id 1 is
      not reused. */
  method CreateAfterDelete() returns (id: int)
    ensures id == 3
  {
    var store := ThreeLessOne();
    ghost var before := store.cars;
    assert 2 in before && 3 !in before;
    var d := store.CreateCar(None, None, Some(2003), None, Some(DefaultEngine), None, None, 0);
    ProbeResult(before, 2, d.value);
    id := d.value;
  }
}
