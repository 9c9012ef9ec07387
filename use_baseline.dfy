/**
  * The baseline hook's view of the saved baselines: the most recent one is
  * active, the rest are shown as earlier baselines.
  */
module ActiveBaseline {
  import opened JsValues

  /** `const { data: allBaselines = [] }`: the fetched list, or `[]` while
      the query has produced nothing. How the list splits into the active
      and the previous baselines is stated by `ActiveThenPrevious`. */
  function AllBaselines<T>(data: Option<seq<T>>): (all: seq<T>)
    ensures data.None? ==> all == []
    ensures data.Some? ==> all == data.value
  {
    if data.Some? then data.value else []
  }

  /** `allBaselines.length > 0 ? allBaselines[0] : null`. */
  function Baseline<T>(all: seq<T>): (active: Option<T>)
    ensures active.None? <==> all == []
    ensures active.Some? ==> active.value == all[0]
  {
    if |all| > 0 then Some(all[0]) else None
  }

  /** `allBaselines.slice(1)`. */
  function PreviousBaselines<T>(all: seq<T>): (previous: seq<T>)
    ensures |all| <= 1 ==> previous == []
    ensures |all| >= 1 ==> |previous| == |all| - 1
    ensures forall i :: 0 <= i < |previous| ==> previous[i] == all[i + 1]
  {
    if |all| <= 1 then [] else all[1..]
  }

  /** The active baseline followed by the earlier ones is the whole list. */
  lemma ActiveThenPrevious<T>(all: seq<T>)
    requires all != []
    ensures [Baseline(all).value] + PreviousBaselines(all) == all
  {
    assert [all[0]] + all[1..] == all;
  }

  /** Before anything is loaded there is no active baseline and no earlier one. */
  lemma NothingLoaded<T>()
    ensures Baseline(AllBaselines<T>(None)) == None && PreviousBaselines(AllBaselines<T>(None)) == []
  {
  }
}
