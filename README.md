# webnutshell core, modelled in Dafny

webnutshell is a small Flask front-end over a Couchbase bucket of customers and
logs. This project models the parts of `webnutshell.py` that hold logic rather
than HTTP plumbing, and proves properties about them:

- **Log form normaliser** (`normalize_log_fields`, module `LogForm`). Every
  form key is split at its first underscore. Keys with prefix `log` each become
  one document field. The document is then validated in a fixed order: name,
  customer id, then whether that customer exists. A key without an underscore
  raises a ValueError. An absent customer id with a character outside ASCII
  raises a UnicodeEncodeError while the not-found message is formatted, because
  Python 2 `str.format` encodes its `unicode` argument as ASCII.
- **Log row processor** (`Node_SnapshotListRowProcessor.handle_rows`, module
  `RowProcessor`). The processor builds one `Node_Snapshot` per view row and an
  id→snapshot table. It issues one `get_multi` for all the ids, then copies each
  fetched document's `customer_id` onto the snapshot registered for that id.
  The model follows the code as written. A failed fetch reaches
  `ret.remove(log_id)`, which looks for a string in a list of snapshots. No
  element ever matches, so it raises a ValueError. A fetched document without
  `customer_id` raises a KeyError. The filtering that was evidently intended is
  modelled separately as `HandleRowsFiltered`; it is not the source's behaviour
  (see Findings).
- **`Node_Snapshot` attribute lookup** (module `Snapshot`). The instance
  attributes and the members Python finds on the class or on `object` come
  first. Any other attribute goes to the `__getattr__` fallback, which reads
  the raw document and defaults to `""`.
- **Prefix search bounds** (`log_search`, `customer_search`, module `Search`).
  The query's key range is `[value, value + STRING_RANGE_END]` and its limit is
  `ENTRIES_PER_PAGE` = 30. A missing `value` argument raises a TypeError. The
  sentinel `STRING_RANGE_END` belongs to the Couchbase client library, so it is
  a parameter (`rangeEnd`). Key order is modelled as lexicographic order on code
  points.

The bucket is a finite map from document key to JSON document (module
`DocStore`). `db.get(id, quiet=True).success` is modelled as `id in bucket`,
and `get_multi(keys, quiet=True)` as the function `MultiGet` behind a
`Connection` object. The connection records each batch of keys it is asked for,
so the contracts can say how many multi-gets `handle_rows` issues and which
keys they carry. Python dictionaries iterated with `.items()` (the form, the
multi-get result) are visited in an arbitrary order: each loop picks its next
key with `:|`, so the proofs hold for every visiting order.

The row processor's `ret.remove(log_id)` followed by `continue`
(`webnutshell.py:45-46`) shows the intent of omitting logs whose document is
missing (a stale index) and carrying on. The code as written raises at
`webnutshell.py:45` instead, and `HandleRows` models that.

## Model

| member | source | states |
|---|---|---|
| DocStore.MultiGet | webnutshell.py:40-41 | One entry per distinct requested key. An entry reports success exactly when the key is in the bucket, and then carries that key's document. |
| DocStore.Connection.GetMulti | webnutshell.py:41 | A quiet multi-get records exactly one new batch holding the given key list, and returns `MultiGet` of those keys against the bucket. |
| Snapshot.DictGet | webnutshell.py:24 | `d.get(key, default)`: the stored value when the key is present, the default otherwise. |
| Snapshot.NodeSnapshot.constructor | webnutshell.py:15-19 | A new snapshot has the given id, name and document, `customer` None, and no `customer_id` attribute. |
| Snapshot.NodeSnapshot.Fallback | webnutshell.py:21-24 | The `__getattr__` fallback equals one lookup, with default `""`, in the document, or in an empty document when there is none. The emptiness test changes nothing. |
| Snapshot.NodeSnapshot.Attribute | webnutshell.py:14-24 | `id`, `name`, `customer` and `doc` return the instance attributes. An assigned `customer_id` returns its value. A name is found on the class (such as `__class__` or `__repr__`) exactly when it is one of the Python 2.7 members of `Node_Snapshot` and `object`. Every other name, including an unassigned `customer_id`, goes to the fallback. |
| Snapshot.FallbackDefaults | webnutshell.py:14-24 | A snapshot whose document is absent or empty answers every field that is neither reserved nor a class member with `""`. With a document, it answers with the document's entry, or `""` when the entry is missing. |
| Search.SearchQuery | webnutshell.py:217-220 | A TypeError exactly when the `value` argument is missing. Otherwise the lower bound is the value, the upper bound is the value followed by the sentinel, and the limit is 30. `customer_search` builds the same query. |
| Search.SearchRangeMembership | webnutshell.py:219 | A key is in the query's inclusive range exactly when it starts with the search value, and what follows the value is empty, starts below the sentinel, or is the sentinel alone. |
| Search.SearchBoundsOrdered | webnutshell.py:241-242 | The lower bound never sorts after the upper bound. |
| Search.ExtensionsInRange | webnutshell.py:219-220 | The value itself, and every extension of it starting below the sentinel, are in range. |
| Search.SearchExample | webnutshell.py:215-220 | Searching for `al` (sentinel above `i` and `b`): `alice` and `album` are in range, `bob` and `a` are not. |
| LogForm.SplitFirst | webnutshell.py:165 | `k.split('_', 1)` with two-name unpacking: no result exactly when the key has no underscore. Otherwise the key is the prefix, an underscore and the rest, and the prefix has no underscore. |
| LogForm.SplitJoin | webnutshell.py:165 | Splitting undoes joining when the first part holds no underscore, so the split is always at the first underscore. |
| LogForm.Collect | webnutshell.py:163-169 | The collected document has field `f` exactly when the form has key `log_f`, and that field holds the key's value unchanged. |
| LogForm.CollectAddLogField | webnutshell.py:164-169 | Adding key `log_f` to a form adds exactly field `f`, with that value, to the collected document. |
| LogForm.CollectAddOther | webnutshell.py:164-169 | Adding a key whose prefix is not `log` leaves the collected document unchanged. |
| LogForm.Validate | webnutshell.py:171-181 | The three checks run in order, and each failure has status 400. "Must have name" exactly when the name is missing or empty. "Must have customer ID" exactly when the name is present but the customer id is missing or empty. Otherwise an absent customer gives "Customer ID {id} not found" when the id is ASCII; any other absent id raises a UnicodeEncodeError, and nothing else raises. Acceptance happens exactly when all three checks pass, and returns the document unchanged. |
| LogForm.Normalized | webnutshell.py:162-181 | A ValueError exactly when some key has no underscore, whatever the other keys hold. A UnicodeEncodeError exactly when every key splits and the collected document names an absent customer id outside ASCII. No other exception. An accepted document has a non-empty name and customer id, the customer exists, and its fields are exactly those of the `log_` keys, with their values. |
| LogForm.NormalizeLogFields | webnutshell.py:162-181 | The loop over the form's items, in any order, followed by validation, yields `Normalized(form, bucket)`. |
| LogForm.ExampleCollect | webnutshell.py:164-169 | The form `log_name`=x, `log_customer_id`=c1, `other_field`=y collects to `{name: x, customer_id: c1}`. |
| LogForm.ExampleForm | webnutshell.py:162-181 | The same form is accepted when customer c1 exists, and `other_field` is dropped. |
| LogForm.AbsentNonAsciiCustomerRaises | webnutshell.py:171-181 | A form with a name and a customer id outside ASCII that no document has raises a UnicodeEncodeError instead of returning the 400. |
| LogForm.CafeCustomerRaises | webnutshell.py:178-179 | The customer id `café`, absent from the bucket, raises a UnicodeEncodeError. |
| RowProcessor.ListRemove | webnutshell.py:45 | `list.remove(x)` fails exactly when no element equals x. Otherwise it removes only the first equal element and keeps the order of the rest. |
| RowProcessor.RemoveFrom | webnutshell.py:45 | `ret.remove(log_id)` on a list of snapshots always fails: a `Node_Snapshot` never equals a string. |
| RowProcessor.BuildSnapshots | webnutshell.py:32-38 | One new snapshot per row, in row order, with `id` = row id, `name` = row key, no document, `customer` None and no `customer_id`. The snapshots are distinct objects. The id table holds exactly the rows' ids, and maps each one to the snapshot of its last row. |
| RowProcessor.FetchAll | webnutshell.py:40-41 | Exactly one multi-get, whose key list is the snapshots' ids in row order. Its result covers exactly those ids, and reports each as the bucket does. |
| RowProcessor.AssignCustomerId | webnutshell.py:48-49 | Copying a document's `customer_id` changes only the snapshot of that id's last row. |
| RowProcessor.VisitFetched | webnutshell.py:44-49 | One visited result. A ValueError exactly when this id's fetch failed, and a KeyError exactly when this id's document lacks `customer_id`; after either, no snapshot has changed. Otherwise the id's document exists and has `customer_id`, and it is copied. |
| RowProcessor.CopyCustomerIds | webnutshell.py:43-49 | Over any visiting order, the loop returns normally exactly when no fetch fails and no fetched document lacks `customer_id`. It then leaves every snapshot as `ExpectedViews` describes. The loop issues no further request: the batch log is unchanged. |
| RowProcessor.HandleRows | webnutshell.py:31-51 | `handle_rows` as written. It issues exactly one multi-get, of the rows' ids in order. Any failed fetch ends in an exception: a ValueError, or a KeyError when a document without `customer_id` is visited first. When nothing is raised, the result has one fresh snapshot per row, in row order, with the row's id and key. Only the last row of each id carries its document's `customer_id`, and nothing else about a snapshot changes. |
| RowProcessor.DuplicateIdKeepsLast | webnutshell.py:38 | With a duplicated id, an earlier row's snapshot never receives `customer_id`. |
| RowProcessor.DistinctIdsAllAssigned | webnutshell.py:43-51 | With distinct ids whose documents exist and carry `customer_id`, every row's snapshot carries its own document's `customer_id`. |
| RowProcessor.StaleIndexAsWritten | webnutshell.py:43-46 | Rows `idA`, `idB` over a bucket that holds only `idA`: `handle_rows` raises a ValueError. |
| RowProcessor.DropIds | webnutshell.py:43-46 | The intended removal keeps exactly the snapshots whose id did not fail, never adds one, and keeps distinct objects distinct. |
| RowProcessor.Resolved | webnutshell.py:43-46 | The intended result's views are exactly those whose document is in the bucket. |
| RowProcessor.ResolvedAppend | webnutshell.py:43-46 | The filter distributes over concatenation, so it never reorders. |
| RowProcessor.ViewsOfDropIds | webnutshell.py:43-46 | Dropping the failed ids from the snapshots filters their views in the same way. |
| RowProcessor.KeepResolved | webnutshell.py:43-46 | The kept snapshots show exactly the resolved expected views, in row order, with no duplicates. |
| RowProcessor.VisitFetchedFiltered | webnutshell.py:44-49 | The evidently intended iteration: a failed fetch of this id is skipped without raising or changing a snapshot. A KeyError exactly when this id's document lacks `customer_id`. |
| RowProcessor.CopyCustomerIdsFiltered | webnutshell.py:43-49 | The intended loop returns normally exactly when no fetched document lacks `customer_id`, and then leaves every snapshot as `ExpectedViews` describes. |
| RowProcessor.HandleRowsFiltered | webnutshell.py:31-51 | The evidently intended `handle_rows`, not the source's behaviour. There is one multi-get. A failed fetch is omitted instead of raising, and the result is the expected views of the resolvable rows, in row order. |
| RowProcessor.StaleIndexFiltered | webnutshell.py:43-46 | With the intended filtering, the stale index of `StaleIndexAsWritten` yields just `alice-log`. |

## Left out

- Flask routing, `render_template`, redirects, `return_search_json` and `app.run` are HTTP and presentation plumbing.
- `connect_db` and the Couchbase client internals (`db.query`, `db.get`, `db.delete`, the network round trip of `get_multi`) are left out. The bucket is a map passed in, and `db.get(...).success` is membership in it.
- The view's range scan and its limit truncation happen inside the database. The model builds the query and proves what its bounds admit, but does not run the scan.
- The concrete value of `Query.STRING_RANGE_END` belongs to the client library; it is the parameter `rangeEnd`.
- The commented-out beer handlers (`webnutshell.py:147-155`, `184-207`) are dead code. `create_beer_display` is stale: `Beer` is undefined in the file.
- The handlers that only reshape query results into `{id, name[, customer]}` dictionaries, and the 404 message strings, are glue with no logic to prove.
- `static/js/webnutshell.js` is browser UI code and is not part of this model.
- Search.SearchRangeMembership: keys are ordered by code point; the view's Unicode collation is not modelled.
- DocStore.Value: JSON numbers are integers. Floating point is not modelled, and documents are always JSON objects.
- LogForm.Normalized: the form is a map with one value per key. Repeated form fields (a multi-dict) are not modelled.
- RowProcessor.HandleRows: when both a failed fetch and a document without `customer_id` occur, which exception comes first depends on the dictionary's iteration order. The contract allows either and does not fix the order.
- RowProcessor.HandleRows: the `include_docs` argument is unused by the source and is not a parameter. The view rows are reduced to their `id` and `key`.
- Snapshot.NodeSnapshot.Attribute: `id`, `name`, `customer` and `doc` are fixed after construction, because the core never reassigns them. Arbitrary attribute assignment is not modelled.
- Snapshot.NodeSnapshot.Attribute: a class member (a method, descriptor or class constant) is reported by name only; its value is not modelled.
- LogForm.Validate: form values are Python 2 `unicode` strings, as Flask gives them. The customer id's own encoding for `db.get` is the client's and is not modelled.

## Findings

| source | as written | input that shows it | evidently intended | confidence | as-written member | corrected member |
|---|---|---|---|---|---|---|
| webnutshell.py:45 | `ret.remove(log_id)` removes a string id from a list of `Node_Snapshot` objects. No element equals it, so every failed fetch raises a ValueError and the page fails. | rows `idA`→`alice-log`, `idB`→`bob-log`; the bucket holds only `idA` (with `customer_id`) | drop the snapshots whose document fetch failed, and keep the rest in row order | not executed; proved in the model | RowProcessor.StaleIndexAsWritten | RowProcessor.HandleRowsFiltered |
