# Entity store of the bookkeeping dashboard

The dashboard keeps an in-memory cache of the active company's vendors,
customers and chart-of-accounts records (`src/lib/store.ts`). The cache is one
state object with three lists and fifteen actions:

- five per list: replace the whole list;
- append a record;
- replace the records that have a given id;
- drop the records with one id;
- drop the records whose id is in a given list.

The model has three modules:

- `Types` (`types.dfy`) holds the record shapes of `src/lib/types.ts`. Each
  record is a `Record<P>`: its `id` plus a payload `P` that holds the remaining
  fields (name, company, import columns, link ids). The cache only compares ids.
- `Table` (`table.dfy`) holds the computation each action performs on one
  list, as pure functions on sequences:
  - `Append` for the array spread;
  - `Update` for the `map` with an id test;
  - `RemoveById` and `RemoveByIds` for the two `filter`s.

  Each function's contract says what the new list is in terms of the old one.
  The lemmas relate the operations to each other: idempotence, identity cases,
  `[id]` against a single id, composition, and order with multiplicities kept.
- `Store` (`store.dfy`) holds the class `AppState`, which has the three lists
  as fields and one method per action. Each method has the frame
  `modifies this`<its field>`. For `add*`, `update*`, `remove*` and
  `remove*s`, the method's `ensures` gives the field's new value as the `Table`
  function of its old value; for `set*`, the new value is the given list. Every
  method also states outright that the other two fields keep their values.

The three collections behave the same, so `Table` is written once, generic in
the payload, and used three times.

`add*` always appends, even when a record with the same id is already
present, and `update*` replaces every record with that id and never inserts
one. The model follows this and does not assume ids are unique; no lemma needs
that assumption.

## Model

| member | source | states |
|---|---|---|
| Store.AppState.constructor | src/lib/store.ts:26-28 | the store starts with vendors, customers and chart of accounts all empty |
| Store.AppState.SetVendors | src/lib/store.ts:29 | vendors become exactly the given list; customers and chart of accounts unchanged; only the vendors field may be written |
| Store.AppState.SetCustomers | src/lib/store.ts:30 | customers become exactly the given list; the other two lists unchanged |
| Store.AppState.SetChartOfAccounts | src/lib/store.ts:31 | chart of accounts becomes exactly the given list; the other two lists unchanged |
| Store.AppState.AddVendor | src/lib/store.ts:32 | vendors = old vendors + [vendor]: one longer, old records at their old positions; the other two lists unchanged |
| Store.AppState.AddCustomer | src/lib/store.ts:33 | customers = old customers + [customer], one longer, prefix kept; the other two lists unchanged |
| Store.AppState.AddChartOfAccount | src/lib/store.ts:34 | chart of accounts = old + [account], one longer, prefix kept; the other two lists unchanged |
| Store.AppState.UpdateVendor | src/lib/store.ts:35-40 | same length, and position i holds the updated vendor exactly when the old vendor at i had its id, else the old vendor; other lists unchanged |
| Store.AppState.UpdateCustomer | src/lib/store.ts:41-46 | same length; records with the updated id replaced, all others as before; other lists unchanged |
| Store.AppState.UpdateChartOfAccount | src/lib/store.ts:47-52 | same length; accounts with the updated id replaced, all others as before; other lists unchanged |
| Store.AppState.RemoveVendor | src/lib/store.ts:53 | vendors become the filter of the old list by id; no vendor with that id is left and the list does not grow; other lists unchanged |
| Store.AppState.RemoveCustomer | src/lib/store.ts:54 | no customer with that id is left, the list does not grow; other lists unchanged |
| Store.AppState.RemoveChartOfAccount | src/lib/store.ts:55 | no account with that id is left, the list does not grow; other lists unchanged |
| Store.AppState.RemoveVendors | src/lib/store.ts:56 | no remaining vendor has an id in the given list; vendors are the filter of the old list; other lists unchanged |
| Store.AppState.RemoveCustomers | src/lib/store.ts:57 | no remaining customer has an id in the given list; other lists unchanged |
| Store.AppState.RemoveChartOfAccounts | src/lib/store.ts:58 | no remaining account has an id in the given list; other lists unchanged |
| Table.Append | src/lib/store.ts:32-34 | the result is one longer, its prefix is the old list and its last element is the new record |
| Table.Update | src/lib/store.ts:35-52 | length and every position's id kept; each record with the updated id becomes the update, every other record unchanged; with no such id the list is unchanged |
| Table.RemoveById | src/lib/store.ts:53-55 | never longer than the input; no record with the id remains; a record is in the result iff it is in the input and has another id |
| Table.RemoveByIds | src/lib/store.ts:56-58 | never longer than the input; no id of the list remains; a record is in the result iff it is in the input and its id is not listed |
| Table.RemoveKeepsOthers | src/lib/store.ts:53-55 | every record with another id survives as many times as it occurred, and the result is a subsequence of the input (original relative order) |
| Table.RemoveIdsKeepsOthers | src/lib/store.ts:56-58 | every record whose id is not listed survives with its multiplicity, and the result is a subsequence of the input |
| Table.RemoveAbsent | src/lib/store.ts:53-55 | removing an id no record carries returns the list unchanged |
| Table.RemoveIdempotent | src/lib/store.ts:53-55 | removing the same id twice equals removing it once |
| Table.RemoveConcat | src/lib/store.ts:53-55 | removal by id distributes over concatenation of lists |
| Table.RemoveAfterAppend | src/lib/store.ts:32-34 | removing after an append drops the new record iff it has the removed id, and otherwise leaves it last |
| Table.RemoveAfterUpdate | src/lib/store.ts:35-55 | removing the updated id after an update gives what removing it before the update gives |
| Table.UpdateIdempotent | src/lib/store.ts:35-52 | applying the same update twice equals applying it once |
| Table.RemoveNoIds | src/lib/store.ts:56-58 | removing an empty id list is the identity |
| Table.RemoveSingleId | src/lib/store.ts:53-58 | removing the id list [id] equals removing the single id |
| Table.RemoveIdsConcat | src/lib/store.ts:56-58 | removing ids a + b at once equals removing a, then b |
| Table.RemoveIdsAbsent | src/lib/store.ts:56-58 | removing ids none of which is present returns the list unchanged |
| Table.RemoveIdsIdempotent | src/lib/store.ts:56-58 | removing the same id list twice equals removing it once |

## Left out

- The `zustand` library's `create`/`set` machinery is not modelled. That covers
  merging a partial state and notifying subscribers and React components. Each
  action is modelled directly as an assignment to its one field.
- Persistence is not modelled: the cache is filled by callers from the document
  store, and nothing here writes back.
- The pages, dialogs, authentication and the AI flows are not modelled. The
  transaction matching, interlinking and review logic belong to these callers.
  The cache neither implements nor constrains any of it.
- Lists and records are modelled as values, while the source holds them by
  reference: `set*` keeps the caller's array, and `add*` and `update*` keep
  the caller's object. The model assumes callers never mutate those arrays or
  records in place afterwards; aliasing between the store and its callers is
  not captured.
- Record payload fields are carried as opaque values. Field order, optional
  versus absent properties, and the column-name keys of imported rows are not
  modelled.
