/**
 * The rows the database layer (apps/common/database.py) hands to the handlers, as
 * values. SQL, connections and writes are not modelled; the handlers receive these
 * rows as inputs.
 */
module Rows {
  import opened Prelude

  /**
   * A row of `get_user_transactions`. The category is the category's name, or ""
   * when the transaction has none (the query's `COALESCE(c.name, '')`); the item is
   * the column as stored, which may be NULL.
   */
  datatype Transaction = Transaction(kind: string, category: string, item: Option<string>, amount: int)

  /**
   * A row of `get_last_records`: the category's name ("" when there is none), the
   * item, which the column allows to be NULL, and the amount.
   */
  datatype RecentRecord = RecentRecord(categoryName: string, item: Option<string>, amount: int)

  /** A row of `find_transactions_by_keyword`: the transaction's id and its original message. */
  datatype MatchedTransaction = MatchedTransaction(id: int, message: string)
}
