/**
 * The filter bar: it holds no state of its own; each control reports the new
 * value of one filter to its parent. The two selects carry numbers as their
 * option values and "" for "all".
 */
module FilterBar {
  import opened Wrappers
  import opened Text

  /** The filters the bar shows, as its parent holds them. */
  datatype Filters = Filters(status: Option<int>, priority: Option<int>, search: string, showDeleted: bool)

  /** A callback the bar invokes. */
  datatype Event = StatusChanged(status: Option<int>) | PriorityChanged(priority: Option<int>)
                 | SearchChanged(search: string) | ShowDeletedChanged(show: bool)

  /** The value a select displays for a filter (`filter ?? ''`, a number written in decimal). */
  function ShownValue(filter: Option<nat>): (v: string)
    ensures v == "" <==> filter.None?
  {
    match filter
    case None => ""
    case Some(n) => NatToString(n)
  }

  /**
   * `value ? Number(value) : undefined` for a select's value, which is one of its
   * option values: "" or a number in decimal.
   */
  function SelectValue(v: string): Option<int>
    requires v == "" || AllDigits(v)
  {
    if v == "" then None else Some(DigitsValue(v))
  }

  /** Picking the option a select shows reports the filter it shows. */
  lemma SelectRoundTrip(filter: Option<nat>)
    ensures SelectValue(ShownValue(filter)) == if filter.None? then None else Some(filter.value as int)
  {
    if filter.Some? {
      NatToStringRoundTrip(filter.value);
    }
  }

  /** The examples of the bar's tests: "2" selects Completed (or High), "" selects all. */
  lemma SelectExamples()
    ensures SelectValue("2") == Some(2)
    ensures SelectValue("") == None
  {
    assert DigitsValue("2") == DigitsValue("") * 10 + 2 by {
      assert "2"[..0] == "";
    }
  }

  function OnSearchInput(text: string): seq<Event> { [SearchChanged(text)] }

  function OnStatusSelect(v: string): seq<Event>
    requires v == "" || AllDigits(v)
  {
    [StatusChanged(SelectValue(v))]
  }

  function OnPrioritySelect(v: string): seq<Event>
    requires v == "" || AllDigits(v)
  {
    [PriorityChanged(SelectValue(v))]
  }

  function OnShowDeletedToggle(checked: bool): seq<Event> { [ShowDeletedChanged(checked)] }

  /** "Clear Filters": status, priority, search and show-deleted reset, in that order. */
  function OnClear(): seq<Event> {
    [StatusChanged(None), PriorityChanged(None), SearchChanged(""), ShowDeletedChanged(false)]
  }

  /** How the parent stores what one callback reports. */
  function Handle(f: Filters, e: Event): Filters {
    match e
    case StatusChanged(s) => f.(status := s)
    case PriorityChanged(p) => f.(priority := p)
    case SearchChanged(t) => f.(search := t)
    case ShowDeletedChanged(b) => f.(showDeleted := b)
  }

  function HandleAll(f: Filters, events: seq<Event>): Filters
    decreases |events|
  {
    if events == [] then f else HandleAll(Handle(f, events[0]), events[1..])
  }

  /** The filters before any is set. */
  function NoFilters(): Filters {
    Filters(None, None, "", false)
  }

  /** Clearing gives the unfiltered state whatever the filters were, so clearing twice is clearing once. */
  lemma ClearResets(f: Filters)
    ensures HandleAll(f, OnClear()) == NoFilters()
    ensures HandleAll(HandleAll(f, OnClear()), OnClear()) == HandleAll(f, OnClear())
  {
    var e := OnClear();
    assert e[1..] == [PriorityChanged(None), SearchChanged(""), ShowDeletedChanged(false)];
    assert e[1..][1..] == [SearchChanged(""), ShowDeletedChanged(false)];
    assert e[1..][1..][1..] == [ShowDeletedChanged(false)];
    forall g: Filters ensures HandleAll(g, e) == NoFilters() {
      assert HandleAll(g, e) == HandleAll(Handle(Handle(Handle(Handle(g, e[0]), e[1]), e[2]), e[3]), []);
    }
  }

  /** Typing and ticking are forwarded unchanged and touch only their own filter. */
  lemma ForwardedUnchanged(f: Filters, text: string, checked: bool)
    ensures HandleAll(f, OnSearchInput(text)) == f.(search := text)
    ensures HandleAll(f, OnShowDeletedToggle(checked)) == f.(showDeleted := checked)
  {
  }
}
