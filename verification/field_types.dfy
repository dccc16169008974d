/** The plain data the fields are built from: the field kinds
    (creatio_tests/field_types.py) and the per-field check context
    (creatio_tests/models/config.py), without the browser driver. */
module FieldTypes {

  datatype FieldType = Text | Boolean | Lookup | Number | DateTime

  /** `CheckContext(driver, wait_timeout_sec, debug, prefix)`. */
  datatype CheckContext = CheckContext(waitTimeoutSec: int, debug: bool, prefix: string)

  /** The context's defaults: a 20-second wait, no debugging, no prefix. */
  const DefaultContext := CheckContext(20, false, "")
}
