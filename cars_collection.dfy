/**
 * The relational join layer: cars refer to models by `modelId`, models refer to
 * brands by `brandId`. A joined car replaces `modelId` by the display titles of
 * its model and brand, degrading to "unknown" when a reference does not resolve.
 */
module CarsCollection {
  import opened Wrappers
  import opened Sequences

  /** The sentinel shown for an unresolved model or brand. */
  const Unknown := "unknown"

  datatype Brand = Brand(id: string, title: string)

  datatype Model = Model(id: string, title: string, brandId: string)

  /** A car; `rest` stands for every field other than `id` and `modelId` (price, year, ...). */
  datatype Car<P> = Car(id: string, modelId: string, rest: P)

  /** A car without `modelId`, with the resolved `brand` and `model` titles. */
  datatype CarJoined<P> = CarJoined(id: string, rest: P, brand: string, model: string)

  // ---------------------------------------------------------------------------
  // Lookups (`Array.prototype.find`)

  /** Index `i` holds the first model whose id is `modelId`. */
  ghost predicate FirstModelWithId(models: seq<Model>, modelId: string, i: int)
  {
    0 <= i < |models| && models[i].id == modelId &&
    forall j :: 0 <= j < i ==> models[j].id != modelId
  }

  /** Index `i` holds the first brand whose id is `brandId`. */
  ghost predicate FirstBrandWithId(brands: seq<Brand>, brandId: string, i: int)
  {
    0 <= i < |brands| && brands[i].id == brandId &&
    forall j :: 0 <= j < i ==> brands[j].id != brandId
  }

  /** `models.find((model) => model.id === modelId)` */
  function FindModel(models: seq<Model>, modelId: string): (r: Option<Model>)
    ensures r.None? <==> forall i :: 0 <= i < |models| ==> models[i].id != modelId
    ensures r.Some? ==> exists i :: FirstModelWithId(models, modelId, i) && models[i] == r.value
  {
    if models == [] then None
    else if models[0].id == modelId then
      assert FirstModelWithId(models, modelId, 0);
      Some(models[0])
    else
      assert forall i :: FirstModelWithId(models[1..], modelId, i) ==> FirstModelWithId(models, modelId, i + 1);
      FindModel(models[1..], modelId)
  }

  /**
   * `brands.find((brand) => brand.id === carModel?.brandId)`: the key is absent
   * (`undefined`) when no model was found, and then no brand matches.
   */
  function FindBrand(brands: seq<Brand>, brandId: Option<string>): (r: Option<Brand>)
    ensures brandId.None? ==> r.None?
    ensures brandId.Some? ==>
      (r.None? <==> forall i :: 0 <= i < |brands| ==> brands[i].id != brandId.value)
    ensures r.Some? ==>
      brandId.Some? && exists i :: FirstBrandWithId(brands, brandId.value, i) && brands[i] == r.value
  {
    if brands == [] then None
    else if Some(brands[0].id) == brandId then
      assert FirstBrandWithId(brands, brandId.value, 0);
      Some(brands[0])
    else
      assert brandId.Some? ==> forall i :: FirstBrandWithId(brands[1..], brandId.value, i) ==>
        FirstBrandWithId(brands, brandId.value, i + 1);
      FindBrand(brands[1..], brandId)
  }

  /** The single normalisation `(found && found.title) ?? 'unknown'`: a found title, even "", is kept. */
  function TitleOr(title: Option<string>): (r: string)
    ensures title.Some? ==> r == title.value
    ensures title.None? ==> r == Unknown
  {
    if title.Some? then title.value else Unknown
  }

  // ---------------------------------------------------------------------------
  // Joining

  /** `joinCar`: drop `modelId`, add the resolved `brand` and `model` titles. */
  function JoinCar<P>(brands: seq<Brand>, models: seq<Model>, car: Car<P>): (r: CarJoined<P>)
    ensures r.id == car.id && r.rest == car.rest
    ensures forall i :: FirstModelWithId(models, car.modelId, i) ==> r.model == models[i].title
    ensures (forall i :: 0 <= i < |models| ==> models[i].id != car.modelId) ==>
      r.model == Unknown && r.brand == Unknown
    ensures forall i, k ::
      FirstModelWithId(models, car.modelId, i) && FirstBrandWithId(brands, models[i].brandId, k) ==>
      r.brand == brands[k].title
    ensures forall i ::
      FirstModelWithId(models, car.modelId, i) &&
      (forall k :: 0 <= k < |brands| ==> brands[k].id != models[i].brandId) ==>
      r.brand == Unknown
  {
    var carModel := FindModel(models, car.modelId);
    var carBrand := FindBrand(brands, if carModel.Some? then Some(carModel.value.brandId) else None);
    FirstModelUnique(models, car.modelId);
    FirstBrandUnique(brands);
    CarJoined(car.id, car.rest,
              TitleOr(if carBrand.Some? then Some(carBrand.value.title) else None),
              TitleOr(if carModel.Some? then Some(carModel.value.title) else None))
  }

  lemma FirstModelUnique(models: seq<Model>, modelId: string)
    ensures forall i, j :: FirstModelWithId(models, modelId, i) && FirstModelWithId(models, modelId, j) ==> i == j
  {
  }

  lemma FirstBrandUnique(brands: seq<Brand>)
    ensures forall b, i, j :: FirstBrandWithId(brands, b, i) && FirstBrandWithId(brands, b, j) ==> i == j
  {
  }

  /** `cars.map(joinCar)`: one joined record per car, in order. */
  function JoinAll<P>(brands: seq<Brand>, models: seq<Model>, cars: seq<Car<P>>): (r: seq<CarJoined<P>>)
    ensures |r| == |cars|
    ensures forall i :: 0 <= i < |cars| ==> r[i] == JoinCar(brands, models, cars[i])
  {
    if cars == [] then []
    else [JoinCar(brands, models, cars[0])] + JoinAll(brands, models, cars[1..])
  }

  // ---------------------------------------------------------------------------
  // Filtering by brand

  /** `models.filter((model) => model.brandId === brandId).map((model) => model.id)` */
  function BrandModelIds(models: seq<Model>, brandId: string): (r: seq<string>)
    ensures |r| <= |models|
    ensures forall id :: id in r <==> exists i :: 0 <= i < |models| && models[i].brandId == brandId && models[i].id == id
  {
    if models == [] then []
    else
      var tail := BrandModelIds(models[1..], brandId);
      assert forall i :: 0 < i < |models| ==> models[i] == models[1..][i - 1];
      if models[0].brandId == brandId then [models[0].id] + tail else tail
  }

  /** `cars.filter((car) => ids.includes(car.modelId))` */
  function CarsWithModelIn<P>(cars: seq<Car<P>>, ids: seq<string>): (r: seq<Car<P>>)
    ensures forall i :: 0 <= i < |r| ==> r[i] in cars && r[i].modelId in ids
    ensures forall j :: 0 <= j < |cars| && cars[j].modelId in ids ==> cars[j] in r
    ensures IsSubseq(r, cars)
  {
    if cars == [] then []
    else
      var tail := CarsWithModelIn(cars[1..], ids);
      assert cars == [cars[0]] + cars[1..];
      assert ([cars[0]] + tail)[1..] == tail;
      if cars[0].modelId in ids then [cars[0]] + tail else tail
  }

  /** Reference predicate: the car's model is some model of brand `brandId`. */
  ghost predicate OfBrand<P>(models: seq<Model>, brandId: string, car: Car<P>)
  {
    exists i :: 0 <= i < |models| && models[i].brandId == brandId && models[i].id == car.modelId
  }

  /** Reference filter: exactly the cars of brand `brandId`, in car order. */
  ghost function CarsOfBrand<P>(models: seq<Model>, brandId: string, cars: seq<Car<P>>): (r: seq<Car<P>>)
  {
    if cars == [] then []
    else
      var tail := CarsOfBrand(models, brandId, cars[1..]);
      if OfBrand(models, brandId, cars[0]) then [cars[0]] + tail else tail
  }

  /** The id-list filter of `getByBrandId` selects exactly the reference filter's cars. */
  lemma {:induction false} CarsWithModelInBrand<P>(models: seq<Model>, brandId: string, cars: seq<Car<P>>)
    ensures CarsWithModelIn(cars, BrandModelIds(models, brandId)) == CarsOfBrand(models, brandId, cars)
  {
    if cars != [] {
      CarsWithModelInBrand(models, brandId, cars[1..]);
    }
  }

  /** The reference filter keeps exactly the cars of the brand, in order. */
  lemma {:induction false} CarsOfBrandSpec<P>(models: seq<Model>, brandId: string, cars: seq<Car<P>>)
    ensures IsSubseq(CarsOfBrand(models, brandId, cars), cars)
    ensures forall i :: 0 <= i < |CarsOfBrand(models, brandId, cars)| ==>
      CarsOfBrand(models, brandId, cars)[i] in cars && OfBrand(models, brandId, CarsOfBrand(models, brandId, cars)[i])
    ensures forall j :: 0 <= j < |cars| && OfBrand(models, brandId, cars[j]) ==> cars[j] in CarsOfBrand(models, brandId, cars)
  {
    if cars != [] {
      CarsOfBrandSpec(models, brandId, cars[1..]);
      var tail := CarsOfBrand(models, brandId, cars[1..]);
      if OfBrand(models, brandId, cars[0]) {
        assert ([cars[0]] + tail)[1..] == tail;
      }
      assert cars == [cars[0]] + cars[1..];
    }
  }

  /** A brand no model belongs to has no cars. */
  lemma {:induction false} CarsOfBrandEmpty<P>(models: seq<Model>, brandId: string, cars: seq<Car<P>>)
    ensures (forall i :: 0 <= i < |models| ==> models[i].brandId != brandId) ==>
      CarsOfBrand(models, brandId, cars) == []
  {
    if cars != [] {
      CarsOfBrandEmpty(models, brandId, cars[1..]);
    }
  }

  /** Joining preserves the sub-sequence relation. */
  lemma {:induction false} JoinAllSubseq<P>(brands: seq<Brand>, models: seq<Model>, a: seq<Car<P>>, b: seq<Car<P>>)
    requires IsSubseq(a, b)
    ensures IsSubseq(JoinAll(brands, models, a), JoinAll(brands, models, b))
    decreases |b|
  {
    var ja, jb := JoinAll(brands, models, a), JoinAll(brands, models, b);
    if a == [] {
    } else if a[0] == b[0] && IsSubseq(a[1..], b[1..]) {
      JoinAllSubseq(brands, models, a[1..], b[1..]);
      assert ja[1..] == JoinAll(brands, models, a[1..]);
      assert jb[1..] == JoinAll(brands, models, b[1..]);
    } else {
      JoinAllSubseq(brands, models, a, b[1..]);
      assert jb[1..] == JoinAll(brands, models, b[1..]);
    }
  }

  // ---------------------------------------------------------------------------
  // Deletion

  /** `cars.filter((car) => car.id !== carId)` */
  function WithoutId<P>(cars: seq<Car<P>>, carId: string): (r: seq<Car<P>>)
    ensures |r| <= |cars|
    ensures forall i :: 0 <= i < |r| ==> r[i] in cars && r[i].id != carId
    ensures forall i :: 0 <= i < |cars| && cars[i].id != carId ==> cars[i] in r
  {
    if cars == [] then []
    else
      var tail := WithoutId(cars[1..], carId);
      assert cars == [cars[0]] + cars[1..];
      if cars[0].id != carId then [cars[0]] + tail else tail
  }

  /** Car ids are unique within the collection. */
  ghost predicate UniqueIds<P>(cars: seq<Car<P>>)
  {
    forall i, j :: 0 <= i < |cars| && 0 <= j < |cars| && cars[i].id == cars[j].id ==> i == j
  }

  lemma {:induction false} WithoutIdSubseq<P>(cars: seq<Car<P>>, carId: string)
    ensures IsSubseq(WithoutId(cars, carId), cars)
  {
    if cars != [] {
      WithoutIdSubseq(cars[1..], carId);
      var tail := WithoutId(cars[1..], carId);
      if cars[0].id != carId {
        assert ([cars[0]] + tail)[1..] == tail;
      }
    }
  }

  /** Deleting an id no car has changes nothing. */
  lemma {:induction false} WithoutIdAbsent<P>(cars: seq<Car<P>>, carId: string)
    requires forall i :: 0 <= i < |cars| ==> cars[i].id != carId
    ensures WithoutId(cars, carId) == cars
  {
    if cars != [] {
      WithoutIdAbsent(cars[1..], carId);
      assert cars == [cars[0]] + cars[1..];
    }
  }

  /** Deleting twice is deleting once. */
  lemma WithoutIdIdempotent<P>(cars: seq<Car<P>>, carId: string)
    ensures WithoutId(WithoutId(cars, carId), carId) == WithoutId(cars, carId)
  {
    var once := WithoutId(cars, carId);
    forall i | 0 <= i < |once| ensures once[i].id != carId {
      assert once[i] in once;
    }
    WithoutIdAbsent(once, carId);
  }

  /** With unique ids, deleting a present id removes exactly one car. */
  lemma {:induction false} WithoutIdRemovesOne<P>(cars: seq<Car<P>>, carId: string)
    requires UniqueIds(cars)
    requires exists i :: 0 <= i < |cars| && cars[i].id == carId
    ensures |WithoutId(cars, carId)| == |cars| - 1
  {
    var tail := cars[1..];
    assert UniqueIds(tail) by {
      forall i, j | 0 <= i < |tail| && 0 <= j < |tail| && tail[i].id == tail[j].id ensures i == j {
        assert cars[i + 1].id == cars[j + 1].id;
      }
    }
    if cars[0].id == carId {
      forall i | 0 <= i < |tail| ensures tail[i].id != carId {
        assert cars[i + 1].id == tail[i].id;
      }
      WithoutIdAbsent(tail, carId);
    } else {
      var i :| 0 <= i < |cars| && cars[i].id == carId;
      assert tail[i - 1].id == carId;
      WithoutIdRemovesOne(tail, carId);
    }
  }

  /**
   * One brand, one model of it, a car of that model and a car whose model is
   * missing: the join, the brand filter and a deletion on that data.
   */
  lemma Scenario()
    ensures var brands := [Brand("b1", "Toyota")];
            var models := [Model("m1", "Corolla", "b1")];
            var c1 := Car("c1", "m1", ("20000", "2020"));
            var c2 := Car("c2", "mX", ("5000", "1999"));
            var j1 := CarJoined("c1", ("20000", "2020"), "Toyota", "Corolla");
            var j2 := CarJoined("c2", ("5000", "1999"), Unknown, Unknown);
            JoinAll(brands, models, [c1, c2]) == [j1, j2] &&
            JoinAll(brands, models, CarsWithModelIn([c1, c2], BrandModelIds(models, "b1"))) == [j1] &&
            JoinAll(brands, models, WithoutId([c1, c2], "c1")) == [j2]
  {
    var brands := [Brand("b1", "Toyota")];
    var models := [Model("m1", "Corolla", "b1")];
    var c1 := Car("c1", "m1", ("20000", "2020"));
    var c2 := Car("c2", "mX", ("5000", "1999"));
    assert FirstModelWithId(models, "m1", 0) && FirstBrandWithId(brands, "b1", 0);
    assert "mX" != "m1";
    assert BrandModelIds(models, "b1") == ["m1"];
    assert [c1, c2][1..] == [c2] && [c2][1..] == [];
    assert "mX" !in ["m1"];
    assert CarsWithModelIn([c2], ["m1"]) == [];
    assert CarsWithModelIn([c1, c2], ["m1"]) == [c1];
    assert "c2" != "c1";
    assert WithoutId([c1, c2], "c1") == [c2];
  }

  // ---------------------------------------------------------------------------
  // The collection object

  class CarsCollection<P> {
    /** The owned car list; `deleteCarById` replaces it. */
    var cars: seq<Car<P>>
    /** Read-only reference tables. */
    const brands: seq<Brand>
    const models: seq<Model>

    constructor (cars: seq<Car<P>>, brands: seq<Brand>, models: seq<Model>)
      ensures this.cars == cars && this.brands == brands && this.models == models
    {
      this.cars := cars;
      this.brands := brands;
      this.models := models;
    }

    /** The `allCars` getter. */
    function AllCars(): (r: seq<CarJoined<P>>)
      reads this
      ensures |r| == |cars|
      ensures forall i :: 0 <= i < |cars| ==>
        r[i].id == cars[i].id && r[i].rest == cars[i].rest && r[i] == JoinCar(brands, models, cars[i])
    {
      JoinAll(brands, models, cars)
    }

    /** `getByBrandId`: the joined cars whose model belongs to brand `brandId`, in car order. */
    function GetByBrandId(brandId: string): (r: seq<CarJoined<P>>)
      reads this
      ensures r == JoinAll(brands, models, CarsOfBrand(models, brandId, cars))
      ensures forall i :: 0 <= i < |r| ==>
        exists j :: 0 <= j < |cars| && OfBrand(models, brandId, cars[j]) && r[i] == JoinCar(brands, models, cars[j])
      ensures forall j :: 0 <= j < |cars| && OfBrand(models, brandId, cars[j]) ==>
        JoinCar(brands, models, cars[j]) in r
      ensures IsSubseq(r, AllCars())
      ensures (forall i :: 0 <= i < |models| ==> models[i].brandId != brandId) ==> r == []
    {
      var brandModelsIds := BrandModelIds(models, brandId);
      var brandCars := CarsWithModelIn(cars, brandModelsIds);
      CarsWithModelInBrand(models, brandId, cars);
      CarsOfBrandSpec(models, brandId, cars);
      JoinAllSubseq(brands, models, brandCars, cars);
      CarsOfBrandEmpty(models, brandId, cars);
      JoinAll(brands, models, brandCars)
    }

    /** `deleteCarById`: keep every car whose id is not `carId`. */
    method DeleteCarById(carId: string)
      modifies this
      ensures cars == WithoutId(old(cars), carId)
      ensures forall i :: 0 <= i < |cars| ==> cars[i] in old(cars) && cars[i].id != carId
      ensures forall j :: 0 <= j < |old(cars)| && old(cars)[j].id != carId ==> old(cars)[j] in cars
      ensures IsSubseq(cars, old(cars))
      ensures (forall i :: 0 <= i < |old(cars)| ==> old(cars)[i].id != carId) ==> cars == old(cars)
      ensures UniqueIds(old(cars)) && (exists i :: 0 <= i < |old(cars)| && old(cars)[i].id == carId) ==>
        |cars| == |old(cars)| - 1
      ensures forall i :: 0 <= i < |AllCars()| ==> AllCars()[i].id != carId
    {
      WithoutIdSubseq(cars, carId);
      if forall i :: 0 <= i < |cars| ==> cars[i].id != carId {
        WithoutIdAbsent(cars, carId);
      }
      if UniqueIds(cars) && exists i :: 0 <= i < |cars| && cars[i].id == carId {
        WithoutIdRemovesOne(cars, carId);
      }
      cars := WithoutId(cars, carId);
    }
  }
}
