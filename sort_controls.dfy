/**
 * The sort controls: a field select and an order button. They hold no state;
 * each handler reports the new (field, order) pair to the parent.
 */
module SortControls {
  import opened Wrappers

  /** The props as passed in; a missing one takes its default. */
  datatype SortProps = SortProps(sortBy: Option<string>, sortOrder: Option<string>) {
    /** `sortBy = ''`. */
    function By(): string { sortBy.GetOr("") }
    /** `sortOrder = 'asc'`. */
    function Order(): string { sortOrder.GetOr("asc") }
  }

  /** Without props the controls sort by nothing, ascending. */
  lemma Defaults()
    ensures SortProps(None, None).By() == "" && SortProps(None, None).Order() == "asc"
  {
  }

  /** 'asc' becomes 'desc'; anything else becomes 'asc'. */
  function Toggled(order: string): (r: string)
    ensures r == "asc" || r == "desc"
    ensures r == "desc" <==> order == "asc"
  {
    if order == "asc" then "desc" else "asc"
  }

  /** `handleSortByChange`: the new field with the current order. */
  function SortByChange(p: SortProps, newSortBy: string): (r: (string, string))
    ensures r.0 == newSortBy && r.1 == p.Order()
  {
    (newSortBy, p.Order())
  }

  /** `handleSortOrderToggle`: the current field with the other order. */
  function SortOrderToggle(p: SortProps): (r: (string, string))
    ensures r.0 == p.By() && r.1 == Toggled(p.Order())
  {
    (p.By(), Toggled(p.Order()))
  }

  /** The order button appears only once a field is chosen (`sortBy && …`). */
  predicate ShowsOrderButton(p: SortProps) {
    p.By() != ""
  }

  /** Toggling twice from 'asc' or 'desc' gives the order back; any other order ends at 'desc'. */
  lemma ToggleTwice(order: string)
    ensures order == "asc" || order == "desc" ==> Toggled(Toggled(order)) == order
    ensures order != "asc" && order != "desc" ==> Toggled(Toggled(order)) == "desc"
  {
  }

  /** Toggling twice, feeding each result back as props, keeps the field and restores the order. */
  lemma ToggleRoundTrip(p: SortProps)
    requires p.Order() == "asc" || p.Order() == "desc"
    ensures var q := SortProps(Some(SortOrderToggle(p).0), Some(SortOrderToggle(p).1));
            SortOrderToggle(q) == (p.By(), p.Order())
  {
    ToggleTwice(p.Order());
  }
}
