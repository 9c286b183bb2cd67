/**
 * What the three admin action files (lib/admin-actions.ts,
 * lib/admin-lesson-actions.ts, lib/admin-conversation-actions.ts) share: a
 * submitted form, the zod field rules they use, the `x || null` and
 * `x || 0` normalisations, and the outcome of a server action.
 */
module AdminForms {
  import opened Wrappers
  import opened Text

  /** The text fields of a submitted form; a field not sent is absent. */
  type Form = map<string, string>

  // `formData.get(name)` is `Get(form, name)`: `None` stands for `null`.

  /** `value || null`: a missing or empty text is null. */
  function NullIfBlank(value: Option<string>): (r: Option<string>)
    ensures r.None? <==> value.None? || value.value == ""
    ensures r.Some? ==> r == value
  {
    if value.Some? && value.value != "" then value else None
  }

  /** `Number(s)`: an integer, `NaN`, or another number (a fraction or an infinity). */
  datatype JsNumber = Integer(n: int) | NotANumber | NonInteger

  /** The outcome of one field's validation: its value, or the fact that it has an error. */
  datatype Checked<T> = Valid(value: T) | Invalid

  /** `z.string().min(1)`: `null` and `""` are rejected. */
  function RequiredText(value: Option<string>): (r: Checked<string>)
    ensures r.Invalid? <==> value.None? || value.value == ""
    ensures r.Valid? ==> r.value == value.value && |r.value| > 0
  {
    if value.Some? && value.value != "" then Valid(value.value) else Invalid
  }

  /**
   * `z.coerce.number().int().nonnegative().optional().nullable()` applied to
   * `formData.get(name) || null`: blank gives `null`; otherwise `Number(s)`
   * (the parameter `toNumber`) must be a whole number.
   */
  function WholeNumber(value: Option<string>, toNumber: string -> JsNumber): (r: Checked<Option<nat>>)
    ensures r == Valid(None) <==> value.None? || value.value == ""
    ensures r.Invalid? <==>
      value.Some? && value.value != "" && !(toNumber(value.value).Integer? && toNumber(value.value).n >= 0)
    ensures r.Valid? && r.value.Some? ==> toNumber(value.value) == Integer(r.value.value)
  {
    match NullIfBlank(value)
    case None => Valid(None)
    case Some(s) =>
      match toNumber(s)
      case Integer(n) => if n >= 0 then Valid(Some(n)) else Invalid
      case _ => Invalid
  }

  /** `n || 0` on a validated count: `null` is stored as 0. */
  function OrZero(n: Option<nat>): (r: nat)
    ensures n.None? ==> r == 0
    ensures n.Some? ==> r == n.value
  {
    if n.Some? then n.value else 0
  }

  /** `{name}` when the field has an error, `{}` otherwise: one entry of `fieldErrors`. */
  function ErrorIf(name: string, bad: bool): (r: set<string>)
    ensures name in r <==> bad
    ensures r <= {name}
  {
    if bad then {name} else {}
  }

  /** `safeParse`: the normalised fields, or the names of the fields in error (never none). */
  datatype Validated<T> = Parsed(value: T) | Rejected(fields: set<string>)

  /** What a server action hands back. */
  datatype ActionResult =
    | FieldErrors(fields: set<string>, message: string)   // validation failed; nothing written
    | Failed(message: string)                            // the database threw
    | Redirected(path: string)                           // `redirect(path)` after a successful write
    | Done(message: string)                              // a delete's `{ message }`

  /** The result and the database after the action. */
  datatype Acted<D> = Acted(result: ActionResult, db: D)

  /** An id of the form `prefix${Date.now()}`. */
  function StampedId(prefix: string, stamp: nat): (id: string)
    ensures |id| > |prefix| && id[..|prefix|] == prefix
  {
    prefix + NatToString(stamp)
  }

  /** The timestamp is recoverable from the id: ids made from different stamps differ. */
  lemma StampedIdReadsBack(prefix: string, stamp: nat)
    ensures ParseInt(StampedId(prefix, stamp)[|prefix|..]) == Some(stamp)
  {
    var id := StampedId(prefix, stamp);
    assert id[|prefix|..] == NatToString(stamp) + "";
    ParseIntOfNat(stamp, "");
  }

  lemma StampedIdInjective(prefix: string, a: nat, b: nat)
    requires StampedId(prefix, a) == StampedId(prefix, b)
    ensures a == b
  {
    StampedIdReadsBack(prefix, a);
    StampedIdReadsBack(prefix, b);
  }
}
