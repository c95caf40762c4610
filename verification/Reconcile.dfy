/** One pass of the controller (pkg/controller/controller.go): fetch, plan, apply. */
module Reconcile {
  import opened Text
  import opened Endpoints
  import opened Dns
  import opened Provider
  import opened Plan
  import opened Cycle
  import opened Convergence

  datatype Error = FetchDesired | FetchCurrent | Apply

  class Controller {
    const cfg: Config
    const owner: string
    const dryRun: bool
    var ready: bool
    var zone: Zone   // the server's

    /** An empty owner ID stands for the default one. */
    constructor (cfg: Config, owner: string, dryRun: bool, zone: Zone)
      ensures this.cfg == cfg && this.dryRun == dryRun && this.zone == zone && !ready
      ensures this.owner == if owner == "" then "external-dns-docker" else owner
    {
      this.cfg, this.dryRun, this.zone := cfg, dryRun, zone;
      this.owner := if owner == "" then DEFAULT_OWNER_ID else owner;
      ready := false;
    }

    /** `source` is what the Docker source returns, `env` what the transfer yields, `outcome` what comes of the
        UPDATE if one is sent. */
    method Reconcile(source: Option<seq<Endpoint>>, env: seq<Envelope>, outcome: Outcome) returns (err: Option<Error>)
      modifies this
      ensures err == Some(FetchDesired) <==> source.None?
      ensures err == Some(FetchCurrent) <==> source.Some? && TransferError in env
      ensures err == Some(Apply) ==> !dryRun && outcome.Failure?
      ensures ready <==> old(ready) || err.None?
      ensures dryRun || source.None? || TransferError in env ==> zone == old(zone)
      ensures !dryRun && source.Some? && TransferError !in env ==>
                exists p :: Planned(cfg, owner, old(zone), source.value, AllAnswers(env), p, outcome, zone)
                            && (err == Some(Apply) <==> !p.IsEmpty() && outcome.Failure?)
      ensures source.Some? && TransferError !in env ==>
                var g := Goal(cfg, owner, Index(source.value));
                Sound(g, old(zone), source.value, AllAnswers(env)) ==>
                  && zone == (if dryRun || outcome == Failure(false) then old(zone) else NextZone(g, old(zone)))
                  && (err == Some(Apply) <==> !dryRun && outcome.Failure? && !Settled(g, old(zone)))
    {
      if source.None? { return Some(FetchDesired); }
      var current := Records(cfg, env);
      if current.None? { return Some(FetchCurrent); }
      var changes := Calculate(owner, source.value, current.value);
      ghost var z := zone;
      ghost var rrs := AllAnswers(env);
      if changes.IsEmpty() {
        SoundOutcome(cfg, owner, z, source.value, rrs, changes, outcome, zone);
        ready := true;
        return None;
      }
      if dryRun {
        ready := true;
        return None;
      }
      var failed;
      zone, failed := ApplyChanges(cfg, zone, changes, outcome);
      SoundOutcome(cfg, owner, z, source.value, rrs, changes, outcome, zone);
      if failed { return Some(Apply); }
      ready := true;
      return None;
    }
  }

  lemma SoundOutcome(cfg: Config, owner: string, z: Zone, desired: seq<Endpoint>, rrs: seq<RR>, p: Changes,
                     outcome: Outcome, z': Zone)
    requires Planned(cfg, owner, z, desired, rrs, p, outcome, z')
    ensures var g := Goal(cfg, owner, Index(desired));
            Sound(g, z, desired, rrs) ==>
              z' == (if outcome == Failure(false) then z else NextZone(g, z)) && (p.IsEmpty() <==> Settled(g, z))
  {
    var g := Goal(cfg, owner, Index(desired));
    if Sound(g, z, desired, rrs) { PlannedZone(g, z, desired, rrs, p, outcome, z'); }
  }
}
