/** `FieldFactory` (creatio_tests/fields/factory.py): a field of the
    variant its kind names, and the `check` that variant runs. */
module FieldFactory {
  import opened Wrappers
  import opened FieldTypes
  import opened ValidationResults
  import Fields
  import Values
  import LookupField
  import OverlayService

  /** The `field_type` argument: a member of `FieldType`, or any other
      value. */
  datatype TypeArg = Kind(t: FieldType) | Other

  /** The `TypeError` Python raises for a call that passes `required=`. */
  const RequiredKeywordError := "FieldFactory.create() got an unexpected keyword argument 'required'"

  /** The variant a field type selects; anything else gets a text field. */
  function KindOf(a: TypeArg): (k: FieldType)
    ensures a.Kind? ==> k == a.t
    ensures a.Other? ==> k == FieldType.Text
  {
    if a.Kind? then a.t else FieldType.Text
  }

  /** `FieldFactory.create(...)`. `passesRequired` says whether the call
      supplies the `required` keyword, which the signature does not have. */
  function Create(ftype: TypeArg, code: string, title: Option<string>, readonly: Option<bool>,
                  strictTitle: bool, ctx: CheckContext, lookupValues: Option<seq<Values.Value>>,
                  passesRequired: bool): (r: Result<Fields.Field, string>)
    ensures r.Err? <==> passesRequired
    ensures r.Err? ==> r.error == RequiredKeywordError
    ensures r.Ok? ==> r.value.kind == KindOf(ftype)
    ensures r.Ok? ==> (r.value.code == code && r.value.title == title && r.value.readonly == readonly
      && r.value.strictTitle == strictTitle && r.value.ctx == ctx)
    ensures r.Ok? && r.value.kind == Lookup ==> r.value.expectedOptions == lookupValues.GetOr([])
    ensures r.Ok? && r.value.kind != Lookup ==> r.value.expectedOptions == []
  {
    if passesRequired then Err(RequiredKeywordError)
    else
      var k := KindOf(ftype);
      Ok(Fields.Field(k, code, title, readonly, strictTitle, ctx,
        if k == Lookup then lookupValues.GetOr([]) else []))
  }

  /** Distinct field types give fields of distinct variants. */
  lemma CreateSeparatesKinds(a: FieldType, b: FieldType, code: string, ctx: CheckContext)
    requires a != b
    ensures Create(Kind(a), code, None, None, true, ctx, None, false).value.kind
         != Create(Kind(b), code, None, None, true, ctx, None, false).value.kind
  {
  }

  /** `field.check(container)` of whichever variant the field is: lookups
      add the options check, every other kind runs the base pipeline with
      its own probe. */
  function CheckField(f: Fields.Field, c: Fields.Container): (r: Result<ValidationResult, OverlayService.Raised>)
    ensures f.kind != Lookup ==> r == Ok(Fields.Check(f, c))
    ensures f.kind == Lookup ==> r == LookupField.Check(f, c)
    ensures r.Ok? && r.value.ok ==> Fields.Check(f, c).ok && r.value.message == "field is valid"
    ensures r.Ok? ==> "code" in r.value.details && r.value.details["code"] == TextValue(f.code)
  {
    if f.kind == Lookup then LookupField.Check(f, c) else Ok(Fields.Check(f, c))
  }

  /** Only a lookup's check can raise, and then only through opening its
      drop-down. */
  lemma OnlyLookupsRaise(f: Fields.Field, c: Fields.Container)
    requires CheckField(f, c).Err?
    ensures f.kind == Lookup && f.expectedOptions != [] && Fields.Check(f, c).ok
    ensures OverlayService.Open(c.parts, c.overlay).Err?
  {
  }
}
