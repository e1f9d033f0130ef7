/**
 * The advanced-filter sheet (src/components/AdvancedFilters.tsx). It edits a local
 * copy of the filter record and hands a record to its parent only on Apply and Reset.
 * Nothing here applies the filters to a list.
 */
module AdvancedFilters {
  import opened Wrappers

  datatype SortBy = Newest | PriceLow | PriceHigh | MostExperienced

  /** `FilterOptions`: null stands for "no bound". */
  datatype FilterOptions = FilterOptions(
    minPrice: Option<real>,
    maxPrice: Option<real>,
    minExperience: Option<int>,
    hasPortfolio: bool,
    sortBy: SortBy)

  /** The record `handleReset` installs. */
  const ResetFilters: FilterOptions := FilterOptions(None, None, None, false, Newest)

  /** The experience slider's range. */
  const SliderMax: int := 20

  /** A price field's change handler, `value ? parseFloat(value) : null`. A number input
      holds either the empty string or text that parses. */
  function PriceFromInput(text: string, parseFloat: string -> Option<real>): (r: Option<real>)
    requires text == [] || parseFloat(text).Some?
    ensures r.None? <==> text == []
    ensures r.Some? ==> r == parseFloat(text)
  {
    if text == [] then None else parseFloat(text)
  }

  /** What a price field displays, `bound ?? ''`: the empty text for an unset bound. */
  datatype PriceText = EmptyText | NumberText(value: real)

  function PriceDisplay(bound: Option<real>): (t: PriceText)
    ensures t.EmptyText? <==> bound.None?
    ensures t.NumberText? ==> t.value == bound.value
  {
    match bound
    case None => EmptyText
    case Some(v) => NumberText(v)
  }

  /** The slider's change handler: position 0 means "no minimum". */
  function ExperienceFromSlider(position: int): (r: Option<int>)
    requires 0 <= position <= SliderMax
    ensures r.None? <==> position == 0
    ensures r.Some? ==> r.value == position && 1 <= r.value <= SliderMax
  {
    if position == 0 then None else Some(position)
  }

  /** The slider's position and the label's number, `minExperience ?? 0`. */
  function ExperienceShown(bound: Option<int>): (position: int)
    ensures bound.None? ==> position == 0
    ensures bound.Some? ==> position == bound.value
  {
    bound.GetOr(0)
  }

  /** Every bound the slider can produce is displayed at the position that produces it
      again, and every position the slider reports is displayed where it was. */
  lemma SliderRoundTrip(bound: Option<int>, position: int)
    requires bound.None? || 1 <= bound.value <= SliderMax
    requires 0 <= position <= SliderMax
    ensures 0 <= ExperienceShown(bound) <= SliderMax
    ensures ExperienceFromSlider(ExperienceShown(bound)) == bound
    ensures ExperienceShown(ExperienceFromSlider(position)) == position
  {
  }

  /** The count badge on the trigger button. */
  predicate ShowsCountBadge(activeFiltersCount: int) {
    activeFiltersCount > 0
  }

  /** The sheet's state; `sentToParent` lists the records handed to `onFiltersChange`,
      in order. */
  class FilterSheet {
    var open: bool
    var localFilters: FilterOptions
    var sentToParent: seq<FilterOptions>

    /** `useState(filters)`: the local copy starts as the parent's record. */
    constructor (filters: FilterOptions)
      ensures localFilters == filters && !open && sentToParent == []
    {
      localFilters := filters;
      open := false;
      sentToParent := [];
    }

    /** `handleApply`: the local record goes to the parent and the sheet closes. */
    method Apply()
      modifies this
      ensures sentToParent == old(sentToParent) + [old(localFilters)]
      ensures !open && localFilters == old(localFilters)
    {
      sentToParent := sentToParent + [localFilters];
      open := false;
    }

    /** `handleReset`: the reset record becomes the local record and goes to the parent;
        the sheet stays as it is. */
    method Reset()
      modifies this
      ensures localFilters == ResetFilters
      ensures sentToParent == old(sentToParent) + [ResetFilters]
      ensures open == old(open)
    {
      localFilters := ResetFilters;
      sentToParent := sentToParent + [localFilters];
    }

    method SetOpen(b: bool)
      modifies this
      ensures open == b && localFilters == old(localFilters) && sentToParent == old(sentToParent)
    {
      open := b;
    }

    method SetSortBy(s: SortBy)
      modifies this
      ensures localFilters == old(localFilters).(sortBy := s)
      ensures open == old(open) && sentToParent == old(sentToParent)
    {
      localFilters := localFilters.(sortBy := s);
    }

    method SetMinPrice(text: string, parseFloat: string -> Option<real>)
      requires text == [] || parseFloat(text).Some?
      modifies this
      ensures localFilters == old(localFilters).(minPrice := PriceFromInput(text, parseFloat))
      ensures open == old(open) && sentToParent == old(sentToParent)
    {
      localFilters := localFilters.(minPrice := PriceFromInput(text, parseFloat));
    }

    method SetMaxPrice(text: string, parseFloat: string -> Option<real>)
      requires text == [] || parseFloat(text).Some?
      modifies this
      ensures localFilters == old(localFilters).(maxPrice := PriceFromInput(text, parseFloat))
      ensures open == old(open) && sentToParent == old(sentToParent)
    {
      localFilters := localFilters.(maxPrice := PriceFromInput(text, parseFloat));
    }

    method SetMinExperience(position: int)
      requires 0 <= position <= SliderMax
      modifies this
      ensures localFilters == old(localFilters).(minExperience := ExperienceFromSlider(position))
      ensures open == old(open) && sentToParent == old(sentToParent)
    {
      localFilters := localFilters.(minExperience := ExperienceFromSlider(position));
    }

    method SetHasPortfolio(checked: bool)
      modifies this
      ensures localFilters == old(localFilters).(hasPortfolio := checked)
      ensures open == old(open) && sentToParent == old(sentToParent)
    {
      localFilters := localFilters.(hasPortfolio := checked);
    }
  }
}
