/**
 * The truncated lists of the reports: the first few items of a list, and an
 * "... and N more" line exactly when some were left out. The VEX report
 * lists 3 statements per status group, the CVE report 10 references.
 */
module Listing {
  import opened Common

  /** What a report shows of a list: the items listed, and the count of the "... and N more" line, if it has one. */
  datatype Preview<T> = Preview(shown: seq<T>, more: Option<nat>)

  /** `items[:limit]`, followed by "... and {len(items) - limit} more" when `len(items) > limit`. */
  function Truncate<T>(items: seq<T>, limit: nat): (p: Preview<T>)
    ensures p.shown <= items
    ensures |p.shown| <= limit
    ensures p.more.Some? <==> |items| > limit
    ensures p.more.None? ==> p.shown == items
    ensures p.more.Some? ==> |p.shown| == limit && p.more.value == |items| - limit
  {
    if |items| > limit then Preview(items[..limit], Some(|items| - limit))
    else Preview(items, None)
  }
}
