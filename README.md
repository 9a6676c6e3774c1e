# Cars listing: join layer and table view model

This project models the core of a small browser listing of cars, their models and
their brands. It covers two components.

- **`CarsCollection`** (`src/helpers/cars-collection.ts`) owns a list of cars and
  reads a list of models and a list of brands. It joins each car with its model
  and brand titles, filters the cars by brand, and deletes a car by id. An
  unresolved reference falls back to the sentinel `"unknown"`.
- **`Table`** (`src/components/table.ts`) is a stateful view component. Here it is
  modelled as a view model: the head it writes (the title, its colspan, the column
  labels) and the body rows (cell strings plus an edit button and a delete button,
  each bound to the row id) are kept as values instead of DOM nodes.

The Dafny modules are:

- `Wrappers`: Option and Result.
- `Sequences`: order-preserving sub-sequences.
- `CarsCollection`: an entity datatype per table, the lookup and filter functions,
  and `class CarsCollection<P>`. Its `cars` field is a `seq` that `DeleteCarById`
  reassigns. `brands` and `models` are constants. `P` is the car payload, meaning
  every field other than `id` and `modelId`; it is kept abstract.
- `Records`: JavaScript plain objects as ordered sequences of key/value entries,
  because `Object.keys` and `Object.values` follow insertion order. A missing
  property reads as `None` (`undefined`).
- `Table`: compatibility check, head and body rendering, shallow merge, and
  `class Table<H>`. `H` stands for the callback type. `headerObj` is a `const`
  fixed by the constructor, so `UpdateProps` cannot recompute it, just as in the
  source.

Behaviour of the code that the model keeps:

- The `OPTIONS` header and the actions cell are always rendered, because
  `onDelete` and `onEdit` are required props.
- The edit button reads `Cancel` for the edited row and `✎` for every other row.
- Header labels and body cells follow the key order of `headerObj`. That object
  is computed once, in the constructor, so columns passed later to
  `updateProps` change neither the header nor the cells.

Every object in the table's props has distinct property names, as a JavaScript
object does. `Table.WellFormed` states this, and `Table.Table.Valid()` keeps it.

A TypeScript constructor that throws becomes `Table.Table.Create`, which returns
`Failure(message)`. The Dafny constructor models only the normal completion of
`new Table(...)`, so it requires that the check passed.

## Model

| member | source | states |
|---|---|---|
| `CarsCollection.FindModel` | src/helpers/cars-collection.ts:21 | Returns nothing exactly when no model has the id. Otherwise it returns the first model with that id. |
| `CarsCollection.FindBrand` | src/helpers/cars-collection.ts:22 | An absent key (no model found) matches no brand. Otherwise it returns nothing exactly when no brand has the id, and the first such brand when one does. |
| `CarsCollection.TitleOr` | src/helpers/cars-collection.ts:26-27 | A found title is kept as it is, even `""`. Only a missing record gives `"unknown"`. |
| `CarsCollection.JoinCar` | src/helpers/cars-collection.ts:19-28 | Keeps `id` and the payload. `model` is the first matching model's title (kept even if `""`), or `"unknown"` if none matches, and then `brand` is `"unknown"` too. `brand` is the title of the first brand matching the found model's `brandId`, or `"unknown"` if none matches while `model` still resolves. |
| `CarsCollection.JoinAll` | src/helpers/cars-collection.ts:45-47 | One joined record per car, at the same index. |
| `CarsCollection.BrandModelIds` | src/helpers/cars-collection.ts:34-36 | An id is in the list exactly when some model of the brand has that id. |
| `CarsCollection.CarsWithModelIn` | src/helpers/cars-collection.ts:38-39 | Keeps exactly the cars whose `modelId` is in the list, as a sub-sequence of the cars. |
| `CarsCollection.CarsWithModelInBrand` | src/helpers/cars-collection.ts:34-40 | Filtering cars by membership in the brand's model-id list equals the reference filter "the car's model is some model of the brand". |
| `CarsCollection.CarsOfBrandSpec` | src/helpers/cars-collection.ts:38-40 | The reference filter is a sub-sequence of the cars. It holds exactly those cars whose model belongs to the brand. |
| `CarsCollection.CarsOfBrandEmpty` | src/helpers/cars-collection.ts:34-40 | A brand that no model belongs to selects no car. |
| `CarsCollection.JoinAllSubseq` | src/helpers/cars-collection.ts:38-47 | Joining maps a sub-sequence of cars to a sub-sequence of the joined cars. |
| `CarsCollection.WithoutId` | src/helpers/cars-collection.ts:50 | Keeps exactly the cars whose id differs from the given one, and is never longer. |
| `CarsCollection.WithoutIdSubseq` | src/helpers/cars-collection.ts:50 | The remaining cars keep their original order. |
| `CarsCollection.WithoutIdAbsent` | src/helpers/cars-collection.ts:49-51 | Deleting an id that no car has leaves the list unchanged. |
| `CarsCollection.WithoutIdIdempotent` | src/helpers/cars-collection.ts:49-51 | Deleting twice equals deleting once. |
| `CarsCollection.WithoutIdRemovesOne` | src/helpers/cars-collection.ts:49-51 | With unique car ids, deleting a present id shortens the list by exactly one. |
| `CarsCollection.Scenario` | src/helpers/cars-collection.ts:19-51 | On one brand, one model and two cars (one with a dangling `modelId`): the join gives the resolved and the `"unknown"` records, the brand filter keeps the first car, and deleting the first car keeps the second. |
| `CarsCollection.CarsCollection.constructor` | src/helpers/cars-collection.ts:15-17 | Stores the three lists. |
| `CarsCollection.CarsCollection.AllCars` | src/helpers/cars-collection.ts:45-47 | Exactly one joined record per car, in car order, with `id` and payload unchanged. |
| `CarsCollection.CarsCollection.GetByBrandId` | src/helpers/cars-collection.ts:31-43 | Equals the join of the reference filter of the brand's cars. Every record is the join of a car of the brand, and every car of the brand is joined into it. It is a sub-sequence of `AllCars`, and it is empty (no error) when no model has the brand. |
| `CarsCollection.CarsCollection.DeleteCarById` | src/helpers/cars-collection.ts:49-51 | The new list is the old one filtered by id: every remaining car has another id, the others are kept in order, and the list is unchanged if the id is absent. With unique ids and the id present, the list is one shorter. `AllCars` no longer has the id. Brands and models are constants. |
| `Records.Keys` | src/components/table.ts:92 | Name i is the name of entry i. With distinct keys, no name is listed twice. |
| `Records.Values` | src/components/table.ts:74 | Value i is the value of entry i. With distinct keys, it is what key i looks up. |
| `Records.Lookup` | src/components/table.ts:93 | Gives `undefined` exactly when no property has the key. With distinct keys, it gives that property's value. |
| `Records.WithoutKey` | src/components/table.ts:30 | Keeps exactly the properties with another key, in their original order (a sub-sequence). |
| `Records.CountProperties` | src/components/table.ts:1 | Counts every entry. With distinct keys, that is the number of distinct property names. |
| `Records.KeySetSize` | src/components/table.ts:1 | An object with distinct names has as many names as entries. |
| `Records.ValuesSubseq` | src/components/table.ts:74 | The values of a sub-sequence of entries are a sub-sequence of the values. |
| `Records.WithoutKeyCount` | src/components/table.ts:30-31 | Removing a key shortens the object by one when the key is present, and not at all otherwise. |
| `Records.WithoutKeySameKeys` | src/components/table.ts:30 | Objects with the same key order keep the same key order after a key is removed. |
| `Table.AllHaveCount` | src/components/table.ts:48-52 | `every` holds exactly when each row's property count equals the column count. |
| `Table.CheckColumnsCompatibility` | src/components/table.ts:42-57 | Fails (with the source's message) exactly when there are rows and some row's property count, `id` included, differs from that of `columns`. No rows never fail. |
| `Table.HeadView` | src/components/table.ts:72-82 | The labels are the `headerObj` values in key order, followed by `OPTIONS`. The title's colspan is their number plus one. |
| `Table.HeaderLabelsInColumnOrder` | src/components/table.ts:30-31 | The labels before `OPTIONS` are the values of `columns` without `id`, in the columns' key order. |
| `Table.TitleSpansAllColumns` | src/components/table.ts:79 | When `columns` has an `id`, the title spans as many cells as `columns` has properties: the non-id ones plus the actions column. |
| `Table.CellText` | src/components/table.ts:93 | A present value is shown as it is. A missing one is shown as `undefined`. |
| `Table.Cells` | src/components/table.ts:92-94 | One cell per `headerObj` key. With distinct row keys, the cell is the row's value under that key. If the row lacks the key, the cell is `undefined`. |
| `Table.RowView` | src/components/table.ts:106-129 | The cells, then an edit button reading `Cancel` exactly when `editedCarId` equals the row's id (`✎` otherwise) and a `Delete` button. Both are bound to the row's id and call `onEdit`/`onDelete`. |
| `Table.BodyView` | src/components/table.ts:84-129 | One row per `rowsData` entry, in order. Cell j is the row's value under `headerObj` key j, or `undefined` if the row lacks it. The edit text is `Cancel` exactly when `editedCarId` equals the row id, `✎` otherwise. Both buttons carry the row id and call `onEdit`/`onDelete`. |
| `Table.AlignedRowCells` | src/components/table.ts:88-94 | A row whose keys come in the column order shows its own non-id values, in order, as cells. |
| `Table.Merge` | src/components/table.ts:131-136 | Every field present in the partial takes its value. Every other field keeps the old one. |
| `Table.MergeIdempotent` | src/components/table.ts:131-136 | Merging the same partial twice equals merging it once. |
| `Table.MergeNothing` | src/components/table.ts:131-136 | Merging an empty partial changes nothing. |
| `Table.UpdateSkipsCompatibilityCheck` | src/components/table.ts:131-138 | Props that pass the check can be merged with rows the check rejects, because `updateProps` does not run it. |
| `Table.HeaderKeepsBuildColumns` | src/components/table.ts:131-137 | A table is built with columns `{id, brand}` and then updated with columns `{id, model}`. Its props then hold the new columns, but its head still shows `Brand` and `OPTIONS`. |
| `Table.MismatchedRowRejected` | src/components/table.ts:42-57 | Columns `{id, brand, model}` with the row `{id, brand}` are rejected with the source's message. |
| `Table.CountCheckIgnoresKeys` | src/components/table.ts:46-52 | A row with the right count but other keys passes the check, and its missing column renders as `undefined`. |
| `Table.Table.Rendered` | src/components/table.ts:67-104 | A rendered table has one body row per entry of `rowsData`, shows the current title, and its colspan is one more than the `headerObj` size. |
| `Table.Table.constructor` | src/components/table.ts:28-40 | Keeps `Valid()`, stores the props, sets `headerObj` to the columns minus `id`, and renders head and body from them. |
| `Table.Table.Create` | src/components/table.ts:28-57 | Construction fails with the source's message exactly when there are rows and some row's count differs from the columns' count. Otherwise it yields a fresh, valid, rendered table. |
| `Table.Table.RenderHeadView` | src/components/table.ts:72-82 | The head is overwritten with the head view of the current title and `headerObj`. |
| `Table.Table.RenderBodyView` | src/components/table.ts:84-104 | The body is emptied and then holds exactly the body view of the current props. |
| `Table.Table.RenderView` | src/components/table.ts:67-70 | Head and body are functions of the props and `headerObj` alone, so rendering twice gives the same result. |
| `Table.Table.UpdateProps` | src/components/table.ts:131-138 | The props become the shallow merge and stay valid. `headerObj` is unchanged, since it is a constant. The head and body are re-rendered from the merged props. |

## Left out

- The DOM: element creation, `innerHTML`, CSS classes, button widths and `addEventListener`. Clicks are modelled as a button carrying its callback and the row id. `initialize` only sets a class name and appends DOM nodes, so it has no counterpart.
- HTML templating and escaping of titles and cells: the view model holds the raw strings.
- `src/components/text-field.ts`, `src/components/select-field.ts` and `src/components/app.ts`: DOM form controls and bootstrap glue, outside the core.
- The stringification adapter and the entity type files are not part of this model. Rows are records of strings, and the car payload is a type parameter.
- Aliasing: the source stores the caller's props object by reference, so `deleteCarById` also reassigns `cars` on the caller's object, and later changes to the caller's brands and models would be visible. The model owns its lists and keeps `brands` and `models` constant.
- `Object.keys` lists integer-like keys first, in numeric order. The model keeps every key in insertion order.
- A `Partial` props object whose field is present with the value `undefined`: the model treats a field as either absent or set to a value.
- Titles that are `null` or `undefined` at run time: the `Brand` and `Model` type files are not part of this model. Titles are assumed to be strings, so `?? 'unknown'` is modelled as applying only when the record is not found.
- Table.Table.constructor: requires that the compatibility check passed, because a Dafny constructor cannot throw. `Table.Table.Create` models the throwing path.
