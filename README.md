# Car catalogue store, modelled in Dafny

The FastAPI application in `main.py` keeps a catalogue of cars in a
process-wide dictionary `cars` from integer id to car record. Its request
handlers create records (allocating the id with a linear probe), look them
up, list a prefix of them, update them through a pydantic merge, and
delete them. This project models that core:

- `results.dfy` (module `Results`): `Option`, the handlers' error kinds
  and `Result`.
- `car.dfy` (module `CarModel`): the `Car` record, the pydantic
  constructor with its year range [1978, 2023) and its `engine` default
  "V4", the update set `car.dict(exclude_unset=True)` with an explicit
  present/omitted flag per field, and the merge `stored.copy(update=...)`.
- `listing.dfy` (module `Listing`): Python's `int()` on the `number`
  query string (white space, sign, digits with single underscores),
  the three-character limit, and the prefix slice `items[:n]` with
  Python's rules for negative `n`.
- `store.dfy` (module `CarStore`): a `Store` class whose fields are the
  dictionary (`cars: map<int, Car>`) and its insertion order
  (`order: seq<int>`). Its invariant `Valid()` says the order has no
  duplicates and lists exactly the keys. The handlers are its methods:
  the id probe, create, update, the two deletes, and the list loop.
  Lookups are functions.

What the code does, as opposed to what its comments suggest:

- The update handler passes all seven fields to `Car(...)` by keyword
  (main.py:125). Every field therefore counts as set, and the update set
  holds all of them. The stored record is replaced by the payload field for
  field, so a field left empty in the form becomes None. A payload without
  a year in [1978, 2023) is refused. The generic merge is modelled
  with per-field presence flags (`CarModel.Merge`). What the handler
  actually does is proved separately (`CarModel.UpdateOverwritesEveryField`,
  `CarStore.Store.ChangeInfo`).
- Before merging, the update handler passes the stored record back
  through `Car(**dict(stored))` (main.py:124). `delete_car` does the
  same with `Car(**stored)` before deleting (main.py:172). A stored
  record whose year is out of range makes both handlers fail and leaves
  the catalogue unchanged. The initial contents come from `database.py`,
  which is not part of this model, so stored years are not assumed valid.
  The handlers only add records the model accepts (`AllWellFormed` is
  preserved).
- The id probe starts at `len(cars) + min_id`. After ids 0, 1 and 2
  are created and id 1 is deleted, the next create gets id 3, not the
  freed id 1: the probe starts at 2, which is taken
  (`CarStore.CreateAfterDelete`).
- `create_car` always passes `engine` explicitly, so on that path the
  default "V4" never applies. A create with `engine` None stores None.
  The default applies only when a record without an `engine` key is
  rebuilt.

## Model

| member | source | states |
|---|---|---|
| `CarModel.NewCar` | main.py:19-26 | The record is accepted iff `year` is passed, is not None and lies in [1978, 2023); a refusal is a validation error; a passed field keeps its value; an omitted field takes its default ("V4" for `engine`, None otherwise) |
| `CarModel.ArgsOf` | main.py:124 | `dict(stored)` passes every field of the stored record, each with the stored value |
| `CarModel.AllPassed` | main.py:86 | The create and update handlers pass every field by keyword |
| `CarModel.UpdateSet` | main.py:126 | `exclude_unset`: a key is in the update set iff that field was passed to the constructor, and its value is the constructed car's value |
| `CarModel.Merge` | main.py:129 | `copy(update=...)`: each field present in the update set comes from it, and every other field keeps the stored value |
| `CarModel.SameFields` | main.py:19-26 | Two records that agree on all seven fields are equal |
| `CarModel.RebuildStored` | main.py:124 | Rebuilding a stored record gives the same record when its year is in range, and a validation error otherwise |
| `CarModel.MergeNoChanges` | main.py:129 | Merging an empty update set keeps the stored record |
| `CarModel.MergeIdempotent` | main.py:129 | Merging the same update set twice equals merging it once |
| `CarModel.MergeKeepsOmitted` | main.py:129 | A field absent from the update set, the year in particular, is unchanged by the merge |
| `CarModel.UpdateOverwritesEveryField` | main.py:125-129 | When every field is passed, as the update handler does, the merged record equals the payload record whatever was stored |
| `Listing.SkipSpaces` | main.py:49 | `int()` skips leading white space (space and tab through carriage return; not the separators 0x1C-0x1F): every skipped character is white space, and the first kept one is not |
| `Listing.CutSpaces` | main.py:49 | `int()` skips trailing white space: every cut character is white space, and the last kept one is not |
| `Listing.SkipSpacesTo` | main.py:49 | The leading skip stops exactly at the first character that is not white space |
| `Listing.CutSpacesTo` | main.py:49 | The trailing skip stops exactly after the last character that is not white space |
| `Listing.Strip` | main.py:49 | `s` without the white space `int()` skips: the result is `s[lo..hi]` where everything before `lo` and from `hi` on is white space, and it neither starts nor ends with white space |
| `Listing.ParseInt` | main.py:49 | `int(number)` fails only with ValueError |
| `Listing.ParsedNumeral` | main.py:49 | When `int(number)` succeeds, `number` is white space, an optional sign, a numeral (digits with single underscores between them), then white space, and the result is the numeral's value, negated after a minus |
| `Listing.StripBetween` | main.py:49 | White space before `lo` and from `hi` on, with none at the ends of `s[lo..hi]`, is exactly what `int()` strips |
| `Listing.NumeralChars` | main.py:49 | A numeral inside `number` begins and ends with a digit and holds only digits and underscores |
| `Listing.ParseNumeral` | main.py:49 | Conversely, every string of that shape parses, to the numeral's value with its sign: padding, a plus sign and underscores are accepted |
| `Listing.ParseRejectsSeparator` | main.py:49 | `int("\x1c5")` raises: the separator 0x1C is not white space to `int()`, though `str.strip()` removes it |
| `Listing.ParseNeedsNumeral` | main.py:49 | `int(number)` succeeds only if `number` holds a digit and every character is a digit, white space, a sign or an underscore (`IsNumeralMark`): a non-numeric `number` raises |
| `Listing.Digits` | main.py:49 | Reference printer (`str(n)`, not called by the source) used to state the round trip of `int()`: the digits of a natural number form a non-empty run of digits |
| `Listing.DigitsValue` | main.py:49 | Reference printer for the `int()` round trip: the digits of n form a numeral whose value is n |
| `Listing.StripUnpadded` | main.py:49 | A string with no white space at either end is unchanged by stripping |
| `Listing.ParseDigits` | main.py:49 | `int()` reads back the digits of a natural number |
| `Listing.ParseMinusDigits` | main.py:49 | `int()` reads back a minus sign followed by the digits of a positive number as its negation |
| `Listing.ParseShow` | main.py:49 | Round trip: `int(str(n)) == n` for every integer n |
| `Listing.ParsePlusDigits` | main.py:49 | `int("+" + str(n)) == n` for every natural number n |
| `Listing.ParsePaddedDigits` | main.py:49 | `int(" " + str(n) + " ") == n` for every natural number n |
| `Listing.Prefix` | main.py:49 | `items[:n]` is a prefix of the items; for n >= 0 it has min(n, len) items; for n < 0 the last -n items are dropped (nothing is left if -n >= len) |
| `Listing.ListPrefix` | main.py:46-50 | A `number` longer than 3 characters is refused; otherwise the page lists iff `int(number)` succeeds, and it shows the prefix `items[:int(number)]` |
| `Listing.ListDefault` | main.py:46 | With the default "10" the page lists all items when there are at most ten, else the first ten |
| `CarStore.Entries` | main.py:49 | `list(cars.items())` has one pair per key, in key order, each key with its record |
| `CarStore.Without` | main.py:159 | After `del`, the order holds exactly the other keys; deleting an absent key changes nothing |
| `CarStore.EntriesAppend` | main.py:97 | Storing a record under a new key appends one pair at the end of the items; all earlier pairs are unchanged |
| `CarStore.WithoutCutsOne` | main.py:173 | In an order without duplicates, deleting a present key cuts out exactly that key; the keys before and after keep their order, and no duplicates appear |
| `CarStore.OrderCountsKeys` | main.py:91 | An order without duplicates that lists exactly the keys has `len(cars)` entries |
| `CarStore.Store.constructor` | main.py:12 | The catalogue starts with arbitrary contents in an arbitrary consistent order |
| `CarStore.Store.Items` | main.py:49 | The item list has `len(cars)` pairs; pair i is the i-th key in insertion order with its record |
| `CarStore.Store.Get` | main.py:64 | `cars.get(key)` is a record iff the key is stored, and then it is the stored record |
| `CarStore.Store.GetCarById` | main.py:62-71 | A key outside [0, 1000) is refused; otherwise the record is returned iff stored, else not-found |
| `CarStore.Store.AllocateId` | main.py:91-95 | The probe returns an id r >= len(cars) + min_id that is not a key, and every integer in [len(cars) + min_id, r) is a key: r is the smallest free id at or above the start (terminates because the key set is finite) |
| `CarStore.Store.CreateCar` | main.py:76-99 | Succeeds iff the year is present and in range; on failure nothing changes. On success exactly one new key, the first free one from `len(cars) + min_id`, maps to the record built from the fields, last in the order; the size grows by 1, and other entries and `Valid` are kept |
| `CarStore.Store.ChangeInfo` | main.py:108-136 | Absent id: not-found, nothing changes. Stored record or payload with a year out of range: validation error, nothing changes. Otherwise the record under the id becomes the payload record field for field; key set and order are unchanged, and other entries are untouched |
| `CarStore.Store.DeleteCarFromFrontend` | main.py:152-161 | Absent id: not-found, nothing changes. Otherwise exactly that key is removed, the size drops by 1, and the order keeps the other keys |
| `CarStore.Store.DeleteCar` | main.py:165-175 | Absent id: not-found. A stored record with a year out of range: validation error. Both leave the store unchanged. Otherwise the record as it was before deletion is reported, and exactly that key is removed |
| `CarStore.Store.GetCars` | main.py:44-52 | The loop copies exactly the list page's prefix of the items, in insertion order (equals `ListPrefix`) |
| `CarStore.ProbeResult` | main.py:94-95 | If the probe's start is free it is the result; if only the start is taken, the result is the next id |
| `CarStore.SequentialIds` | main.py:91-98 | Three creates on an empty catalogue with `min_id` 0 receive ids 0, 1, 2 |
| `CarStore.CreateAfterDelete` | main.py:91-98 | With ids 0, 1, 2 stored and id 1 deleted, the next create receives id 3 |

## Left out

- FastAPI routing, form/query/path/body parsing other than the `number` length limit and the key range, status codes, `RedirectResponse`, `HTTPException`: framework I/O. The handlers' outcomes are `Result` values.
- Jinja2 templates, the static mount, the `/`, `/create`, `/edit` and `/search` routes: presentation and redirects with no logic.
- `jsonable_encoder` and the switch between `Car` objects and dicts in the store. Both are treated as the same record value. As a consequence the model does not capture that `Car(**stored)` at main.py:172 needs a mapping, which a stored `Car` object is not.
- Pydantic's type coercion of form values, e.g. strings to numbers or booleans: the model receives already-typed values.
- The float semantics of `price`: it is an abstract type, carried and compared, never computed on.
- Stored dicts with missing or extra keys: a stored record always has all seven fields.
- The dead check `len(new_car) < 1` (main.py:88) and the `min_id += 1` after insertion (main.py:98): `create_car` always handles exactly one record, so neither has an effect.
- A `min_id` of None (a TypeError in `len(...) + min_id`): `min_id` is modelled as an integer.
- `Listing.ParseInt`: it accepts only ASCII digits and the ASCII white space `int()` skips (space, tab, line feed, vertical tab, form feed, carriage return). Python's `int()` also accepts non-ASCII Unicode decimal digits and white space in a string that is not pure ASCII.
- `database.py` is not part of this model: the initial catalogue is an arbitrary parameter of the constructor.
- Concurrency: the source has no locking, and the model treats requests as sequential.
