/** The progress bar (components/ProgressBar.jsx): its width is the progress clamped to [0, 100]. */
module ProgressBar {
  import opened Wrappers

  /** `Math.min(100, Math.max(0, progress))`. */
  function Clamp(progress: real): (width: real)
    ensures 0.0 <= width <= 100.0
    ensures 0.0 <= progress <= 100.0 ==> width == progress
    ensures progress < 0.0 ==> width == 0.0
    ensures progress > 100.0 ==> width == 100.0
  {
    var atLeastZero := if progress > 0.0 then progress else 0.0;
    if atLeastZero < 100.0 then atLeastZero else 100.0
  }

  /** The rendered width; an omitted `progress` defaults to 0. */
  function Width(progress: Option<real>): (width: real)
    ensures progress.None? ==> width == 0.0
    ensures progress.Some? ==> width == Clamp(progress.value)
  {
    Clamp(match progress case Some(p) => p case None => 0.0)
  }

  lemma ClampIdempotent(progress: real)
    ensures Clamp(Clamp(progress)) == Clamp(progress)
  {
  }

  lemma ClampMonotone(p: real, q: real)
    requires p <= q
    ensures Clamp(p) <= Clamp(q)
  {
  }
}
