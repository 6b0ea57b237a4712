/** What the add and edit handlers of the admin pages share: the answer of a
    table write and the outcome of one handler run. */
module Database {
  import opened Common

  /** The answer of `.insert(...)`, `.update(...)` or `.delete()` followed by
      `.select().single()`: the row it returns, or the error object with its
      `code` and `message`. */
  datatype WriteReply<R> = Wrote(row: R) | WriteFailed(code: string, message: string)

  /** One run of an add or edit handler: the payload written to the table
      (None when the handler stopped before the write), the row handed to the
      page's `onXAdded`/`onXUpdated` callback, the friendly error the handler
      showed or stored, how the promise the form awaits settles, and the
      bucket afterwards. */
  datatype Outcome<D, R> = Outcome(
    sent: Option<D>, delivered: Option<R>, reported: Option<string>, settled: Settled, storage: set<string>)

  /** PostgreSQL's unique_violation error code. */
  const UNIQUE_VIOLATION: string := "23505"

  /** The fallback of `err.message || 'Ocurrió un error inesperado.'`. */
  const UNEXPECTED_ERROR: string := "Ocurrió un error inesperado."

  /** `err.code === '23505' && err.message.includes('sku')`; an error that
      did not come from the table (an upload failure) has no code. */
  predicate IsDuplicateSku(code: Option<string>, message: string)
    ensures IsDuplicateSku(code, message) <==>
      code == Some(UNIQUE_VIOLATION) && exists i :: OccursAt(message, "sku", i)
  {
    ContainsIffOccurs(message, "sku");
    code == Some(UNIQUE_VIOLATION) && Contains(message, "sku")
  }

  const SKU_MESSAGE_HEAD: string := "Error: El SKU '"
  const SKU_MESSAGE_TAIL: string := "' ya existe. Por favor, usa uno diferente."

  /** The duplicate-SKU message quotes the SKU the form sent. */
  function DuplicateSkuMessage(sku: string): (r: string)
    ensures OccursAt(r, sku, |SKU_MESSAGE_HEAD|)
    ensures StartsWith(r, SKU_MESSAGE_HEAD)
  {
    var r := SKU_MESSAGE_HEAD + sku + SKU_MESSAGE_TAIL;
    assert r[|SKU_MESSAGE_HEAD|..|SKU_MESSAGE_HEAD| + |sku|] == sku;
    assert r[..|SKU_MESSAGE_HEAD|] == SKU_MESSAGE_HEAD;
    r
  }

  /** Different SKUs give different messages, so the message names the SKU
      that clashed. */
  lemma DuplicateSkuMessageInjective(a: string, b: string)
    requires DuplicateSkuMessage(a) == DuplicateSkuMessage(b)
    ensures a == b
  {
    var m := DuplicateSkuMessage(a);
    assert |m| == |SKU_MESSAGE_HEAD| + |a| + |SKU_MESSAGE_TAIL|;
    assert |a| == |b|;
    assert a == m[|SKU_MESSAGE_HEAD|..|SKU_MESSAGE_HEAD| + |a|] == b;
  }

  /** The friendly error of the product handlers: the duplicate-SKU message
      for a unique violation on the SKU, the prefixed message otherwise. An
      error without a code (an upload failure) is always prefixed. */
  function ProductErrorText(prefix: string, code: Option<string>, message: string, sku: string): (r: string)
    ensures code.None? ==> r == prefix + message
    ensures IsDuplicateSku(code, message) ==> r == DuplicateSkuMessage(sku)
    ensures !IsDuplicateSku(code, message) ==> StartsWith(r, prefix) && r[|prefix|..] == message
  {
    if IsDuplicateSku(code, message) then DuplicateSkuMessage(sku)
    else
      assert (prefix + message)[..|prefix|] == prefix;
      prefix + message
  }
}
