/**
  The two external services the category repository calls: the database driver
  (`db.query`) and the schema validator (`categorySchema.validate`). Neither is
  modelled as code; the repository is modelled as a function of what they return.
 */
module Gateway {
  import opened JsObject

  /** What a driver callback receives: an error carrying `err.message`, or a result. */
  datatype Outcome<T> = Failed(message: string) | Returned(value: T)

  /** A select returns its rows. */
  type SelectOutcome = Outcome<seq<Object>>

  /** An insert returns `result.insertId`. */
  type InsertOutcome = Outcome<nat>

  /** An update or a delete returns `result.affectedRows`. */
  type WriteOutcome = Outcome<nat>

  /** The validator's verdict: no error, or an error whose `details` carry one message each. */
  datatype Validation = Valid | Invalid(details: seq<string>)

  /** The statements the repository sends to the driver, each with the parameters bound to it. */
  datatype Statement =
    | SelectAll                                  // SELECT * FROM category
    | SelectById(id: Value)                      // SELECT * FROM category WHERE id = ?
    | SelectPage(limit: Value, offset: Value)    // SELECT * FROM category LIMIT ? OFFSET ?
    | CountAll                                   // SELECT COUNT(*) as totalCount FROM category
    | Insert(row: Object)                        // INSERT INTO category SET ?
    | SelectIllustration(id: Value)              // SELECT illustration FROM category WHERE id = ?
    | UpdateRow(row: Object, id: Value)          // UPDATE category SET ? WHERE id = ?
    | DeleteById(id: Value)                      // DELETE FROM category WHERE id = ?
    | SetStatus(status: Value, id: Value)        // UPDATE category SET status = ? WHERE id = ?
    | SetTrash(trash: Value, id: Value)          // UPDATE category SET trash = ? WHERE id = ?
    | SelectByStatus(status: Value)              // SELECT * FROM category WHERE status = ?
    | SelectByTrash(trash: Value)                // SELECT * FROM category WHERE trash = ?
}
