/** The `Car` record of the catalogue: its fields, the checks and defaults
    the pydantic model applies when it is constructed from keyword arguments,
    the update set `car.dict(exclude_unset=True)` and the merge
    `stored.copy(update=...)`. */
module CarModel {
  import opened Results

  /** A floating-point price. It is carried from request to store and back,
      never computed on, so the model keeps it abstract. */
  type Price(==)

  /** `year` must satisfy MinYear <= year < YearLimit. */
  const MinYear: int := 1978
  const YearLimit: int := 2023

  /** The value `engine` takes when the constructor is called without it. */
  const DefaultEngine: string := "V4"

  datatype Car = Car(
    make: Option<string>,
    model: Option<string>,
    year: int,
    price: Option<Price>,
    engine: Option<string>,
    autonomous: Option<bool>,
    sold: Option<seq<string>>)

  predicate YearInRange(year: int) {
    MinYear <= year < YearLimit
  }

  /** A record the `Car` model accepts. */
  predicate WellFormed(c: Car) {
    YearInRange(c.year)
  }

  /** One keyword argument of a call: left out of the call, or passed
      (possibly as None). The same shape says whether a key is present in
      an update set. */
  datatype Arg<+T> = Omitted | Passed(value: T)

  /** The keyword arguments of a `Car(...)` call. `year` may be passed as
      None, which the model then refuses. */
  datatype CarArgs = CarArgs(
    make: Arg<Option<string>>,
    model: Arg<Option<string>>,
    year: Arg<Option<int>>,
    price: Arg<Option<Price>>,
    engine: Arg<Option<string>>,
    autonomous: Arg<Option<bool>>,
    sold: Arg<Option<seq<string>>>)

  /** The dictionary `car.dict(exclude_unset=True)`: a key is present exactly
      for the fields that were set when the car was constructed. */
  datatype Patch = Patch(
    make: Arg<Option<string>>,
    model: Arg<Option<string>>,
    year: Arg<int>,
    price: Arg<Option<Price>>,
    engine: Arg<Option<string>>,
    autonomous: Arg<Option<bool>>,
    sold: Arg<Option<seq<string>>>)

  // A field-by-field view of records, arguments and update sets, used to
  // state the constructor's and the merge's contracts once for all fields.

  datatype FieldName =
    MakeField | ModelField | YearField | PriceField | EngineField | AutonomousField | SoldField

  datatype FieldValue =
    | Text(text: Option<string>)
    | Number(number: Option<int>)
    | Money(money: Option<Price>)
    | Flag(flag: Option<bool>)
    | Tokens(tokens: Option<seq<string>>)

  function FieldOf(c: Car, f: FieldName): FieldValue {
    match f
    case MakeField => Text(c.make)
    case ModelField => Text(c.model)
    case YearField => Number(Some(c.year))
    case PriceField => Money(c.price)
    case EngineField => Text(c.engine)
    case AutonomousField => Flag(c.autonomous)
    case SoldField => Tokens(c.sold)
  }

  function ArgOf(a: CarArgs, f: FieldName): Arg<FieldValue> {
    match f
    case MakeField => if a.make.Passed? then Passed(Text(a.make.value)) else Omitted
    case ModelField => if a.model.Passed? then Passed(Text(a.model.value)) else Omitted
    case YearField => if a.year.Passed? then Passed(Number(a.year.value)) else Omitted
    case PriceField => if a.price.Passed? then Passed(Money(a.price.value)) else Omitted
    case EngineField => if a.engine.Passed? then Passed(Text(a.engine.value)) else Omitted
    case AutonomousField => if a.autonomous.Passed? then Passed(Flag(a.autonomous.value)) else Omitted
    case SoldField => if a.sold.Passed? then Passed(Tokens(a.sold.value)) else Omitted
  }

  function PatchOf(p: Patch, f: FieldName): Arg<FieldValue> {
    match f
    case MakeField => if p.make.Passed? then Passed(Text(p.make.value)) else Omitted
    case ModelField => if p.model.Passed? then Passed(Text(p.model.value)) else Omitted
    case YearField => if p.year.Passed? then Passed(Number(Some(p.year.value))) else Omitted
    case PriceField => if p.price.Passed? then Passed(Money(p.price.value)) else Omitted
    case EngineField => if p.engine.Passed? then Passed(Text(p.engine.value)) else Omitted
    case AutonomousField => if p.autonomous.Passed? then Passed(Flag(p.autonomous.value)) else Omitted
    case SoldField => if p.sold.Passed? then Passed(Tokens(p.sold.value)) else Omitted
  }

  /** The value a field takes when the constructor is called without it:
      "V4" for `engine`, None for every other optional field. `year` has no
      default; the constructor refuses a call without it. */
  function DefaultOf(f: FieldName): FieldValue {
    match f
    case MakeField => Text(None)
    case ModelField => Text(None)
    case YearField => Number(None)
    case PriceField => Money(None)
    case EngineField => Text(Some(DefaultEngine))
    case AutonomousField => Flag(None)
    case SoldField => Tokens(None)
  }

  function ValueOr<T>(a: Arg<T>, default: T): T {
    if a.Passed? then a.value else default
  }

  /** `Car(**kwargs)`: the record is accepted exactly when `year` is passed,
      is not None and lies in [MinYear, YearLimit); a passed field keeps the
      value it was passed, an omitted one takes its default. */
  function NewCar(a: CarArgs): (r: Result<Car>)
    ensures r.Ok? <==> a.year.Passed? && a.year.value.Some? && YearInRange(a.year.value.value)
    ensures r.Err? ==> r.error == InvalidRecord
    ensures r.Ok? ==> WellFormed(r.value)
    ensures r.Ok? ==> forall f :: ArgOf(a, f).Passed? ==> FieldOf(r.value, f) == ArgOf(a, f).value
    ensures r.Ok? ==> forall f :: ArgOf(a, f).Omitted? ==> FieldOf(r.value, f) == DefaultOf(f)
  {
    if a.year.Passed? && a.year.value.Some? && YearInRange(a.year.value.value) then
      Ok(Car(
        ValueOr(a.make, None),
        ValueOr(a.model, None),
        a.year.value.value,
        ValueOr(a.price, None),
        ValueOr(a.engine, Some(DefaultEngine)),
        ValueOr(a.autonomous, None),
        ValueOr(a.sold, None)))
    else
      Err(InvalidRecord)
  }

  /** A call that passes every field by keyword, as the create and update
      handlers do. */
  function AllPassed(make: Option<string>, model: Option<string>, year: Option<int>,
                     price: Option<Price>, engine: Option<string>,
                     autonomous: Option<bool>, sold: Option<seq<string>>): (a: CarArgs)
    ensures forall f :: ArgOf(a, f).Passed?
  {
    CarArgs(Passed(make), Passed(model), Passed(year), Passed(price),
            Passed(engine), Passed(autonomous), Passed(sold))
  }

  /** `Car(**dict(stored))`: every field of a stored record, passed back to
      the constructor. */
  function ArgsOf(c: Car): (a: CarArgs)
    ensures forall f :: ArgOf(a, f) == Passed(FieldOf(c, f))
  {
    AllPassed(c.make, c.model, Some(c.year), c.price, c.engine, c.autonomous, c.sold)
  }

  /** `car.dict(exclude_unset=True)` for the car `c` built from `a`: a key
      is present exactly for the fields `a` passed, with the car's value. */
  function UpdateSet(a: CarArgs, c: Car): (p: Patch)
    ensures forall f :: PatchOf(p, f).Passed? <==> ArgOf(a, f).Passed?
    ensures forall f :: PatchOf(p, f).Passed? ==> PatchOf(p, f).value == FieldOf(c, f)
  {
    Patch(
      if a.make.Passed? then Passed(c.make) else Omitted,
      if a.model.Passed? then Passed(c.model) else Omitted,
      if a.year.Passed? then Passed(c.year) else Omitted,
      if a.price.Passed? then Passed(c.price) else Omitted,
      if a.engine.Passed? then Passed(c.engine) else Omitted,
      if a.autonomous.Passed? then Passed(c.autonomous) else Omitted,
      if a.sold.Passed? then Passed(c.sold) else Omitted)
  }

  /** `stored.copy(update=p)`: each field present in the update set comes
      from it, every other field from the stored record. */
  function Merge(stored: Car, p: Patch): (r: Car)
    ensures forall f :: FieldOf(r, f) == (if PatchOf(p, f).Passed? then PatchOf(p, f).value else FieldOf(stored, f))
  {
    Car(
      ValueOr(p.make, stored.make),
      ValueOr(p.model, stored.model),
      ValueOr(p.year, stored.year),
      ValueOr(p.price, stored.price),
      ValueOr(p.engine, stored.engine),
      ValueOr(p.autonomous, stored.autonomous),
      ValueOr(p.sold, stored.sold))
  }

  /** The update set with no key present. */
  const NoChanges: Patch := Patch(Omitted, Omitted, Omitted, Omitted, Omitted, Omitted, Omitted)

  /** Two records that agree on every field are the same record. */
  lemma SameFields(c: Car, d: Car)
    requires forall f :: FieldOf(c, f) == FieldOf(d, f)
    ensures c == d
  {
    assert FieldOf(c, MakeField) == FieldOf(d, MakeField);
    assert FieldOf(c, ModelField) == FieldOf(d, ModelField);
    assert FieldOf(c, YearField) == FieldOf(d, YearField);
    assert FieldOf(c, PriceField) == FieldOf(d, PriceField);
    assert FieldOf(c, EngineField) == FieldOf(d, EngineField);
    assert FieldOf(c, AutonomousField) == FieldOf(d, AutonomousField);
    assert FieldOf(c, SoldField) == FieldOf(d, SoldField);
  }

  /** Passing a stored record back to the constructor gives the same record
      when its year is in range, and fails otherwise. */
  lemma RebuildStored(c: Car)
    ensures NewCar(ArgsOf(c)) == if WellFormed(c) then Ok(c) else Err(InvalidRecord)
  {
  }

  /** The merge with an empty update set keeps the stored record. */
  lemma MergeNoChanges(stored: Car)
    ensures Merge(stored, NoChanges) == stored
  {
  }

  /** Applying the same update set twice is the same as applying it once. */
  lemma MergeIdempotent(stored: Car, p: Patch)
    ensures Merge(Merge(stored, p), p) == Merge(stored, p)
  {
  }

  /** A merge never changes a field the update set leaves out; in particular
      the year stays in range when the update set has no year. */
  lemma MergeKeepsOmitted(stored: Car, p: Patch, f: FieldName)
    requires PatchOf(p, f).Omitted?
    ensures FieldOf(Merge(stored, p), f) == FieldOf(stored, f)
    ensures p.year.Omitted? ==> Merge(stored, p).year == stored.year
  {
  }

  /** What the update handler does: it passes every field by keyword, so
      every field is in the update set and the merged record is the payload
      itself, field for field, whatever was stored. */
  lemma UpdateOverwritesEveryField(stored: Car, a: CarArgs)
    requires forall f :: ArgOf(a, f).Passed?
    requires NewCar(a).Ok?
    ensures Merge(stored, UpdateSet(a, NewCar(a).value)) == NewCar(a).value
  {
    var c := NewCar(a).value;
    SameFields(Merge(stored, UpdateSet(a, c)), c);
  }
}
