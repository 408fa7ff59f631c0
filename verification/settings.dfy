/** The settings page: a settings object with literal defaults, edited field by field. */
module Settings {
  import opened JsValues
  import opened Dom

  const Defaults: Record := [
    ("siteName", Str("ZAFIRI CMS")),
    ("siteDescription", Str("Content Management System")),
    ("adminEmail", Str("admin@zafiri.com")),
    ("timezone", Str("UTC+0")),
    ("dateFormat", Str("YYYY-MM-DD")),
    ("itemsPerPage", Num(10)),
    ("enableNotifications", Bool(true)),
    ("maintenanceMode", Bool(false))]

  /**
    `handleChange(e)`: a checkbox stores its checked state, every other
    input its text (a number input included); no other setting changes.
   */
  function HandleChange(settings: Record, e: InputEvent): (r: Record)
    ensures e.kind.Checkbox? ==> Get(r, e.name) == Bool(e.kind.checked)
    ensures !e.kind.Checkbox? ==> Get(r, e.name) == Str(e.value)
    ensures forall k :: k != e.name ==> Get(r, k) == Get(settings, k)
    ensures e.name in Keys(settings) ==> Keys(r) == Keys(settings)
  {
    Set(settings, e.name, if e.kind.Checkbox? then Bool(e.kind.checked) else Str(e.value))
  }

  /** The page starts from ten items per page, as a number, and editing the field turns it into text. */
  lemma ItemsPerPageBecomesText(value: string)
    ensures Get(Defaults, "itemsPerPage") == Num(10)
    ensures Get(HandleChange(Defaults, InputEvent("itemsPerPage", value, TextInput)), "itemsPerPage") == Str(value)
  {
    assert forall j :: 0 <= j < 5 ==> Defaults[j].0 != Defaults[5].0;
    GetFirst(Defaults, 5);
  }

  /** Editing a default setting keeps the set of settings and their order. */
  lemma ChangeKeepsShape(e: InputEvent)
    requires e.name in Keys(Defaults)
    ensures Keys(HandleChange(Defaults, e)) == Keys(Defaults)
    ensures |HandleChange(Defaults, e)| == 8
  {
  }
}
