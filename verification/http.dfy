/** What a route action reads from a request and what it answers. */
module Http {
  import opened Wrappers
  import opened Text

  /** A value of submitted form data: `FormData.get` yields a string or a File (or null when absent). */
  datatype FormValue = Text(text: string) | FileValue

  type FormData = map<string, FormValue>

  /** `formData.get(name)`: the submitted value, or None for null. */
  function Get(form: FormData, name: string): (r: Option<FormValue>)
    ensures r.Some? <==> name in form
    ensures r.Some? ==> r.value == form[name]
  {
    if name in form then Some(form[name]) else None
  }

  /** `typeof v === "string" && v.length > 0`. */
  predicate IsNonEmptyText(v: Option<FormValue>) {
    v.Some? && v.value.Text? && |v.value.text| > 0
  }

  /** The body of an error answer: one field's message, or the upload flag. */
  datatype ErrorBody = FieldError(field: string, message: string) | UploadError

  /** `json(body, {status})`, `redirect(location)`, or an exception the framework turns into an error page. */
  datatype Response = Json(status: nat, body: ErrorBody) | Redirect(location: string) | Thrown

  /** The location of the page for record `id` under `prefix`, as built by `${prefix}${id}`. */
  function PathTo(prefix: string, id: nat): (path: string)
    ensures |prefix| < |path| && path[..|prefix|] == prefix && IsDigits(path[|prefix|..])
  {
    prefix + Decimal(id)
  }

  /** The route parameter of `path` under `prefix`, or None when `path` is not such a location. */
  function IdOfPath(prefix: string, path: string): Option<nat> {
    if |prefix| < |path| && path[..|prefix|] == prefix && IsDigits(path[|prefix|..])
    then Some(ParseDecimal(path[|prefix|..]))
    else None
  }

  /** A redirect to `PathTo(prefix, id)` lands on the route for exactly `id`. */
  lemma PathRoundTrip(prefix: string, id: nat)
    ensures IdOfPath(prefix, PathTo(prefix, id)) == Some(id)
  {
    assert PathTo(prefix, id)[|prefix|..] == Decimal(id);
    ParseDecimalOfDecimal(id);
  }
}
