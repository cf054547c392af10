/** The numeric options of the optimiser, their bounds checks, and the
    padding of `--radii` to the dimensionality. */
module Config {
  import opened Wrappers
  import opened PointSet

  /** The options the loop depends on, as parsed from the command line;
      `dimensionality` is `None` when `--dimensionality` is not given. */
  datatype Options = Options(
    dimensionality: Option<int>,
    staleThreshold: real,
    staleCount: int,
    numProposals: int,
    mode: Mode)

  /** The four option errors, each ending the run with exit status 1. */
  datatype ConfigError = BadDimensionality | BadStaleThreshold | BadStaleCount | BadNumProposals

  /** The bounds checks, made in this order before anything is read: the
      first failing one is reported. */
  function ValidateOptions(o: Options): (r: Option<ConfigError>)
    ensures r.None? <==>
      (o.dimensionality.None? || o.dimensionality.value >= 1) && o.staleThreshold >= 0.0
      && o.staleCount >= 1 && o.numProposals >= 1
    ensures r == Some(BadDimensionality) <==> o.dimensionality.Some? && o.dimensionality.value < 1
    ensures r == Some(BadStaleThreshold) <==>
      (o.dimensionality.None? || o.dimensionality.value >= 1) && o.staleThreshold < 0.0
    ensures r == Some(BadStaleCount) <==>
      (o.dimensionality.None? || o.dimensionality.value >= 1) && o.staleThreshold >= 0.0
      && o.staleCount < 1
    ensures r == Some(BadNumProposals) <==>
      (o.dimensionality.None? || o.dimensionality.value >= 1) && o.staleThreshold >= 0.0
      && o.staleCount >= 1 && o.numProposals < 1
  {
    if o.dimensionality.Some? && o.dimensionality.value < 1 then Some(BadDimensionality)
    else if o.staleThreshold < 0.0 then Some(BadStaleThreshold)
    else if o.staleCount < 1 then Some(BadStaleCount)
    else if o.numProposals < 1 then Some(BadNumProposals)
    else None
  }

  /** `radii.extend([radii[-1]] * (d - len(radii)))`: `None` is the
      `IndexError` of `radii[-1]` on an empty list. Otherwise the list keeps
      its entries, is never truncated, and is filled up to `d` entries with
      copies of its last one. */
  function PadRadii(radii: seq<real>, d: int): (r: Option<seq<real>>)
    ensures r.None? <==> radii == []
    ensures r.Some? ==> |r.value| == (if d > |radii| then d else |radii|)
    ensures r.Some? ==> r.value[..|radii|] == radii
    ensures r.Some? ==> forall i :: |radii| <= i < |r.value| ==> r.value[i] == radii[|radii| - 1]
  {
    if radii == [] then None
    else Some(radii + seq(if d > |radii| then d - |radii| else 0, _ => radii[|radii| - 1]))
  }

  /** The settings of a run that has passed every check. */
  datatype Config = Config(
    mode: Mode,
    threshold: real,
    staleCount: nat,
    numProposals: nat,
    dim: nat,
    radii: seq<real>)

  predicate ValidConfig(c: Config)
  {
    c.threshold >= 0.0 && c.staleCount >= 1 && c.numProposals >= 1
    && c.dim >= 1 && |c.radii| >= c.dim
  }
}
