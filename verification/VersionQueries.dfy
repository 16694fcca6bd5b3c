/** The version queries of the service: the versions that the patch store lists, filtered. */
module VersionQueries {
  import opened Wrappers
  import opened ApiServer
  import opened PatchProtocol
  import opened PatchStore
  import opened PatchTheorems
  import Versions

  ghost predicate IsInstallable(parse: Versions.Parser, s: string) {
    || s == "latest"
    || (parse(s).Some? && |parse(s).value.segments| == 3 && parse(s).value.segments[2] == 0)
  }

  ghost predicate IsUpgradeOf(parse: Versions.Parser, current: string, s: string) {
    parse(current).Some? && parse(s).Some? && Versions.IsUpgrade(parse(current).value, parse(s).value)
  }

  method GetOpenFuyaoVersions(c: PatchClient, parse: Versions.Parser) returns (r: Option<seq<string>>)
    modifies c
    ensures QueryOutcome(c.env, c.remote, c.env.deployPath, old(c.store), r.Some?, c.store)
    ensures r.Some? ==>
              exists list :: QueryAnswers(c.env, c.remote, c.env.deployPath, old(c.store), list)
                             && r.value == Versions.Select(list, s => Versions.Installable(parse, s))
                             && forall s :: s in r.value <==> s in list && IsInstallable(parse, s)
    ensures old(c.NoFaults()) ==> (r.Some? <==> QueryWorks(c.env, c.remote, c.env.deployPath, old(c.store)))
  {
    var list := c.GetVersionsFromSource(false);
    if list.None? { return None; }
    var result := Versions.FilterInstallable(parse, list.value);
    forall s
      ensures s in result <==> s in list.value && IsInstallable(parse, s)
    {
      Versions.InstallableExactly(parse, list.value, s);
    }
    r := Some(result);
  }

  // An invalid current version is noticed only after the query, which may have refreshed the store.
  method GetOpenFuyaoUpgradeVersions(c: PatchClient, parse: Versions.Parser, current: string)
    returns (r: Option<seq<string>>)
    modifies c
    ensures current == Versions.LATEST ==> r == Some([]) && c.store == old(c.store)
    ensures current != Versions.LATEST ==>
              exists ok :: QueryOutcome(c.env, c.remote, c.env.patchPath, old(c.store), ok, c.store) && (r.Some? ==> ok)
    ensures r.Some? && current != Versions.LATEST ==>
              exists list :: QueryAnswers(c.env, c.remote, c.env.patchPath, old(c.store), list)
                             && r == Versions.Upgrades(parse, list, current)
                             && forall s :: s in r.value <==> s in list && IsUpgradeOf(parse, current, s)
    ensures old(c.NoFaults()) && current != Versions.LATEST ==>
              && (r.Some? <==> QueryWorks(c.env, c.remote, c.env.patchPath, old(c.store)) && parse(current).Some?)
              && (QueryWorks(c.env, c.remote, c.env.patchPath, old(c.store)) ==>
                    c.store == AfterQuery(c.env, c.remote, c.env.patchPath, old(c.store)))
  {
    if current == Versions.LATEST { return Some([]); }
    var list := c.GetVersionsFromSource(true);
    assert QueryOutcome(c.env, c.remote, c.env.patchPath, old(c.store), list.Some?, c.store);
    if list.None? { return None; }
    r := Versions.FilterUpgrades(parse, list.value, current);
  }

  // After any run of successful uploads, whatever order the index is listed in: a version that was uploaded is
  // among the upgrades of the current one exactly when it parses, is greater, and continues the current line or
  // is a release of another.
  lemma UploadedVersionIsOffered(env: Env, s: Store, ops: seq<Op>, i: nat, version: string, content: string,
                                 remote: Remote, list: seq<string>, parse: Versions.Parser, current: string)
    requires RunOps(env, s, ops).Some? && LastUpload(ops, i, version, content)
    requires QueryAnswers(env, remote, env.patchPath, RunOps(env, s, ops).value, list)
    requires current != Versions.LATEST && parse(current).Some?
    ensures version in Versions.Upgrades(parse, list, current).value
            <==> IsUpgradeOf(parse, current, version)
  {
    UploadIsStored(env, s, ops, i, version, content);
    Versions.UpgradesExactly(parse, list, current);
  }
}
