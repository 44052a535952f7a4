# Category repository model

A Dafny model of `CategoryModel`, the data-access layer for the `category` table of a
bookstore web application. Each static method of `CategoryModel` runs zero, one or two SQL
statements through the database driver. `create` also runs the schema validator first.
The method then turns what the driver returned into a result envelope with the fields
`data`, `message`, `success`, `error` and, for `getList` and `getListWithLimitOffset`,
`totalCount`.

The driver and the validator are inputs here, not code:

- A driver outcome is `Failed(message)`, where `message` is `err.message`, or `Returned(value)`.
  The value is the row list for a select, `insertId` for an insert and `affectedRows` for an update or delete.
- A validation verdict is `Valid` or `Invalid(details)`. `details` holds the message of each validation detail.

Every operation is a function from those outcomes to a `Run`. A run has two parts:

- `reply`: the envelope given to the callback, or `TypeError` where the source reads
  `countResult[0]` or `error.details[0]` from an empty list and throws.
- `issued`: the statements sent to the driver, in order, with their parameters.

When an operation sends a second statement, that statement's outcome is a parameter too.
`issued` shows whether the statement was actually sent. The contracts show that an
outcome which was never sent has no effect on the reply.

Values and objects follow JavaScript:

- `Value` has the primitive kinds a payload or a row can hold.
- `Truthy` is JavaScript truthiness. `!updatedCategory.illustration` is true for
  `undefined`, `null`, `false`, `0` and `""`.
- An object is an ordered property list. `Get` is a property read, which gives `undefined`
  for a missing property. `Put` is a property assignment: an existing property keeps its
  position, and a new one goes at the end. This is the JavaScript order for names that are
  not array indices, such as `illustration`, the only name the repository assigns.

`update` changes the caller's payload object in place. The class `Payload` and the method
`ApplyUpdate` model that mutation. The pure function `Update` describes the same run on a
snapshot of the payload, and `ApplyUpdate` is proved equal to it.

`Observe` classifies an envelope into one of the four outcome kinds (applied, not found,
driver error, validation failure). It looks at `success`, then at whether `message` is the
validation message, then at whether `error` is empty.

Notes on the code as written:

- `getDetail` succeeds for any non-empty result and returns the first row. It does not
  require exactly one row.
- A driver error and a missing row differ in both `message` and `error`. The error is the
  driver's message in the first case and `""` in the second. By `error` alone, which is the
  split `Observe` makes, the two look alike when the driver's message is empty
  (`EmptyDriverMessageLooksLikeNotFound`).
- In some cases the callback is never called. `getListWithLimitOffset` throws a `TypeError`
  inside the driver callback when the count query returns no row. `create` throws a `TypeError`
  synchronously to its own caller when the validator reports an error with an empty `details`
  list; no statement has been sent at that point.

## Model

| member | source | states |
|---|---|---|
| `CategoryModel.GetList` | src/app/models/CategoryModel.js:5-24 | one `SELECT *`; a driver error gives `success=false`, `data=[]`, `totalCount=0`, `error=err.message`; success gives `data=rows`, `totalCount=|rows|`; the envelope is well formed |
| `CategoryModel.GetDetail` | src/app/models/CategoryModel.js:26-51 | a driver error gives `data={}` with the driver message; zero rows gives `data={}`, `error=""` (observed as not found, not as a driver error); one or more rows gives `success=true`, `data=rows[0]`; no `totalCount` |
| `CategoryModel.GetListWithLimitOffset` | src/app/models/CategoryModel.js:53-89 | the count query is issued iff the page query succeeded; a failed count gives `data=[]`, `totalCount=0` (page rows do not leak); success takes `totalCount` from the first count row, not from `|rows|`; an empty count result throws |
| `CategoryModel.Create` | src/app/models/CategoryModel.js:91-117 | the insert is issued iff validation passed; a rejection gives `data=[]` and the first detail's message as `error` (observed as a validation failure); an empty detail list throws; a successful insert gives `data=insertId` |
| `CategoryModel.Patched` | src/app/models/CategoryModel.js:140-143 | a falsy incoming illustration takes the stored value, a truthy one leaves the payload unchanged; every other property is unchanged; property order is kept, with `illustration` appended if it was absent; the written illustration is truthy iff the incoming or the stored one is |
| `CategoryModel.Update` | src/app/models/CategoryModel.js:119-170 | the write is issued only after a read that returned a row, with the patched payload; a failed read gives the driver message, an empty read `error=""`; after the read, the write step reports a driver error, zero affected rows or success with `data=id` |
| `CategoryModel.Payload.PreserveIllustration` | src/app/models/CategoryModel.js:141-143 | the in-place assignment leaves the payload object equal to `Patched` of its old contents |
| `CategoryModel.ApplyUpdate` | src/app/models/CategoryModel.js:119-170 | the in-place run gives the same reply and statements as `Update`; the caller's payload is patched exactly when the read found the row, whatever the write's outcome |
| `CategoryModel.WriteReport` | src/app/models/CategoryModel.js:145-167 | the three outcomes of a write: a driver error gives `data=[]` with the driver message, `affectedRows=0` gives `data=[]` with `error=""`, otherwise `success=true` and `data=id` |
| `CategoryModel.Delete` | src/app/models/CategoryModel.js:173-198 | one delete by id; the three outcomes of a write with the delete messages |
| `CategoryModel.UpdateStatus` | src/app/models/CategoryModel.js:200-225 | one status update by id; the three outcomes of a write |
| `CategoryModel.UpdateTrash` | src/app/models/CategoryModel.js:227-252 | one trash-flag update by id; the three outcomes of a write |
| `CategoryModel.GetListByStatus` | src/app/models/CategoryModel.js:254-271 | one filtered select; `data=rows` on success, `data=[]` with the driver message on error; never a `totalCount` |
| `CategoryModel.GetListByTrash` | src/app/models/CategoryModel.js:273-290 | one filtered select; `data=rows` on success, `data=[]` with the driver message on error; never a `totalCount` |
| `Envelope.Observe` | src/app/models/CategoryModel.js:28-43 | classification by `success`, the validation message and `error`: applied iff `success`; not found only with an empty `error`, driver error only with a non-empty one |
| `JsObject.Get` | src/app/models/CategoryModel.js:141-142 | a property read gives `undefined` for a missing name and otherwise the value stored under that name |
| `JsObject.Put` | src/app/models/CategoryModel.js:142 | a property assignment sets that property, keeps every other one, and keeps the property order, appending a new name |
| `JsObject.PutKeepsUniqueKeys` | src/app/models/CategoryModel.js:142 | an assignment never creates two properties with the same name |
| `JsObject.PutPut` | src/app/models/CategoryModel.js:142 | assigning the same property twice is the same as assigning only the second value |
| `JsObject.PutSame` | src/app/models/CategoryModel.js:142 | assigning a property its current value changes nothing |
| `CategoryProperties.PageFailureIgnoresCount` | src/app/models/CategoryModel.js:56-67 | after a failed page query no count query is sent, and the count outcome does not affect the run |
| `CategoryProperties.RejectionIgnoresInsert` | src/app/models/CategoryModel.js:92-101 | after a validation failure no statement is sent, and the insert outcome does not affect the run |
| `CategoryProperties.MissingRowIgnoresWrite` | src/app/models/CategoryModel.js:122-145 | after a failed or empty read no write is sent, and the write outcome does not affect the run |
| `CategoryProperties.UpdateStatusRepeatable` | src/app/models/CategoryModel.js:200-225 | any two status updates that touch a row give the same successful envelope with `data=id` |
| `CategoryProperties.EmptyDriverMessageLooksLikeNotFound` | src/app/models/CategoryModel.js:28-43 | a driver error with an empty message is classified by `Observe` the same as a missing row, although the two `message` texts differ (for `getDetail` and for `delete`) |
| `CategoryProperties.PatchedIdempotent` | src/app/models/CategoryModel.js:141-143 | patching again against the same stored row changes nothing |
| `CategoryProperties.PatchedIsIdentity` | src/app/models/CategoryModel.js:141-143 | the payload is written unchanged iff its illustration is truthy or already equals the stored value |

## Left out

- The database driver and SQL: the model does not evaluate selects, `LIMIT`/`OFFSET`, `COUNT(*)`,
  insert-id generation or affected-row counting, and there is no table. The driver's results are inputs.
- The validation schema: `src/app/schemas/CategorySchema` is not part of this model. Its verdict is an input.
- Callbacks and asynchrony: each operation returns its reply directly. A second statement
  is modelled as "its outcome counts only if it was issued".
- The race between the read and the write in `update` is a concurrency problem and is not modelled.
- Messages are modelled only as the literal constants the source uses. No logic depends on them.
- JavaScript values that no payload or row here holds are not modelled: objects nested
  inside properties, `NaN` and non-integer numbers. A property named `illustration`
  on the prototype chain is not modelled either.
- Put: the order of names that are array indices (`"0"`, `"1"`, …) is not modelled. JavaScript
  lists those first, in ascending order, but `Put` appends them like any other name. The
  repository only assigns `illustration`, so no modelled operation depends on this.
- Serialising the envelope to JSON is not modelled. For example, a `totalCount` of
  `undefined` (a count row without that property) is dropped from the JSON.
