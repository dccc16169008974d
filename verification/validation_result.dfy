/** `ValidationResult` (creatio_tests/models/result.py): a verdict, its
    message and a details dictionary. */
module ValidationResults {

  /** The kinds of value the checker stores in `details`: a code, a found
      label or a readonly reason, an option list, or `None`. */
  datatype Detail = TextValue(s: string) | TextList(items: seq<string>) | NoValue

  datatype ValidationResult = ValidationResult(ok: bool, message: string, details: map<string, Detail>)

  /** `ValidationResult(ok, message)` with the default, empty details. */
  function New(ok: bool, message: string): (r: ValidationResult)
    ensures r.ok == ok && r.message == message
    ensures |r.details| == 0
  {
    ValidationResult(ok, message, map[])
  }

  /** `with_detail(key, value)`. The source mutates the record in place and
      returns it; here the updated record is the result. */
  function WithDetail(r: ValidationResult, key: string, value: Detail): (r': ValidationResult)
    ensures key in r'.details && r'.details[key] == value
    ensures forall k :: k != key ==> (k in r'.details <==> k in r.details)
    ensures forall k :: k != key && k in r.details ==> r'.details[k] == r.details[k]
    ensures r'.ok == r.ok && r'.message == r.message
  {
    r.(details := r.details[key := value])
  }

  /** Setting the same key twice keeps only the second value. */
  lemma WithDetailLastWins(r: ValidationResult, key: string, v1: Detail, v2: Detail)
    ensures WithDetail(WithDetail(r, key, v1), key, v2) == WithDetail(r, key, v2)
  {
  }

  /** Details under different keys can be added in either order. */
  lemma WithDetailCommutes(r: ValidationResult, k1: string, v1: Detail, k2: string, v2: Detail)
    requires k1 != k2
    ensures WithDetail(WithDetail(r, k1, v1), k2, v2) == WithDetail(WithDetail(r, k2, v2), k1, v1)
  {
  }

  /** Setting a key to the value it already holds changes nothing. */
  lemma WithDetailIdempotent(r: ValidationResult, key: string)
    requires key in r.details
    ensures WithDetail(r, key, r.details[key]) == r
  {
  }
}
