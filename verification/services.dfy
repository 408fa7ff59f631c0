/**
  The Services page: records sent as JSON, and the price label of the list.
 */
module Services {
  import opened JsValues
  import opened JsStrings
  import opened Http
  import Panel

  const Collection := ApiRoot + "services/"
  const FetchFailed := "Failed to fetch services"
  const DeleteDone := "Service deleted successfully!"
  const DeleteFailed := "Failed to delete service. Please try again."

  const EditFallbacks: Record :=
    [("title", Str("")), ("description", Str("")), ("category", Str("")), ("price", Str("")), ("status", Str("Active"))]

  function SaveFailed(editing: bool): string {
    "Failed to " + (if editing then "update" else "create") + " service. Please try again."
  }

  /** `fetchItems()`: a successful load leaves an earlier error banner in place. */
  function FetchItems(st: Panel.State, outcome: AxiosOutcome): (st': Panel.State)
    ensures outcome.Resolved? ==> st' == st.(items := outcome.data)
    ensures outcome.Rejected? ==> st' == st.(error := Some(FetchFailed))
  {
    Panel.Fetch(st, outcome, FetchFailed, false)
  }

  /** `handleChange(e)`: every input, the number input included, stores its text. */
  function HandleChange(st: Panel.State, name: string, value: string): (st': Panel.State)
    ensures Get(st'.draft, name) == Str(value)
    ensures forall k :: k != name ==> Get(st'.draft, k) == Get(st.draft, k)
    ensures st' == st.(draft := st'.draft)
  {
    Panel.ChangeText(st, name, value)
  }

  /** `handleSubmit(e)`: the draft object itself is the JSON body. */
  function HandleSubmit(st: Panel.State, outcome: AxiosOutcome): (s: Panel.Step)
    ensures |s.calls| == 1 && s.calls[0].request.body == Json(Obj(st.draft))
    ensures s.calls[0].headers == []
    ensures s.calls[0].request.verb == (if st.isEditing then PUT else POST)
    ensures s.calls[0].request.url == if st.isEditing then Panel.ItemUrl(Collection, st.editingId) else Collection
    ensures outcome.Resolved? ==> s.state == Panel.ResetForm(st) && s.refetch
    ensures outcome.Rejected? ==> s.state == st.(error := Some(SaveFailed(st.isEditing))) && !s.refetch
  {
    Panel.Submit(st, Collection, Json(Obj(st.draft)), [], outcome, SaveFailed(st.isEditing))
  }

  /**
    `handleEdit(item)`: title, description, category and price default to "",
    status to "Active".
   */
  function HandleEdit(st: Panel.State, item: Record): (st': Panel.State)
    ensures Panel.EditedFrom(st'.draft, item, EditFallbacks)
    ensures st'.isEditing && st'.editingId == Get(item, "id") && st'.error == None && st'.success == None
    ensures st'.items == st.items && st'.preview == st.preview
  {
    assert UniqueKeys(EditFallbacks);
    var draft := Panel.EditDraft(item, EditFallbacks);
    Panel.Edit(st, item, draft, true, st.preview)
  }

  /** A price of 0 is shown as "" in the edit form, so saving that form turns a zero price into "". */
  lemma ZeroPriceBecomesEmpty(st: Panel.State, item: Record)
    requires Get(item, "price") == Num(0)
    ensures Get(HandleEdit(st, item).draft, "price") == Str("")
  {
  }

  /** `handleDelete(id)` */
  function HandleDelete(st: Panel.State, id: Value, confirmed: bool, outcome: AxiosOutcome): (s: Panel.Step)
    ensures !confirmed ==> s == Panel.Step(st, [], false)
    ensures confirmed ==> s.calls == [Call(Request(DELETE, Panel.ItemUrl(Collection, id), NoBody), [])]
    ensures confirmed && outcome.Resolved? ==> s.state == st.(success := Some(DeleteDone)) && s.refetch
    ensures confirmed && outcome.Rejected? ==> s.state == st.(error := Some(DeleteFailed)) && !s.refetch
  {
    Panel.Delete(st, Collection, id, confirmed, outcome, DeleteDone, DeleteFailed)
  }

  predicate AllDigits(s: string) {
    forall i :: 0 <= i < |s| ==> IsDigit(s[i])
  }

  /**
    `formatPrice(price)`: a falsy price reads "Free"; otherwise
    `$${parseFloat(price).toFixed(2)}`. Integral prices, given as numbers or
    as digit strings, are rendered; every other price needs floating point
    and is None here.
   */
  function FormatPrice(price: Value): (shown: Option<string>)
    ensures !Truthy(price) ==> shown == Some("Free")
    ensures price.Num? && price.n != 0 ==> shown == Some("$" + IntToDecimal(price.n) + ".00")
    ensures price.Str? && price.s != "" && AllDigits(price.s) ==>
      shown == Some("$" + NatToDecimal(DecimalValue(price.s)) + ".00")
    ensures shown.Some? <==> !Truthy(price) || price.Num? || (price.Str? && AllDigits(price.s))
  {
    if !Truthy(price) then Some("Free")
    else match price
      case Num(n) => Some("$" + IntToDecimal(n) + ".00")
      case Str(s) => if AllDigits(s) then Some("$" + NatToDecimal(DecimalValue(s)) + ".00") else None
      case _ => None
  }

  /**
    The number 0 is free but the text "0" is truthy and reads "$0.00"; and a
    positive number and the digit string that spells it get the same label.
   */
  lemma PriceLabels(n: nat)
    ensures FormatPrice(Num(0)) == Some("Free")
    ensures FormatPrice(Str("0")) == Some("$0.00")
    ensures FormatPrice(Str(NatToDecimal(n))) == FormatPrice(Num(n)) || n == 0
  {
    assert DecimalValue("0") == 0 by {
      assert "0"[..0] == [];
    }
    assert NatToDecimal(0) == "0";
    assert "$" + "0" + ".00" == "$0.00";
    if n != 0 {
      assert NatToDecimal(n) != "";
      DecimalRoundTrip(n);
    }
  }
}
