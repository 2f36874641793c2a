/** The names the program itself puts into the hosts file, and what repeated runs with them leave behind. */
module HostNames {
  import opened Text
  import opened Users
  import opened GraphUrls
  import opened HostsFile

  datatype Config = Config(origins: Origins, baseDomain: string, localDomains: seq<string>)

  /** Names that need no entry; `isIp` tells literal addresses. */
  predicate IsLoopback(host: string, isIp: string -> bool) { host == "localhost" || isIp(host) }

  predicate NeedsEntry(host: string, isIp: string -> bool) { host != "" && !IsLoopback(host, isIp) }

  /** `trim().toLowerCase()`. */
  function Domain(raw: string): string { LowerCase(Trim(raw)) }

  /** A domain or one of its three subdomains. */
  predicate OfDomain(name: string, d: string) {
    name == d || name == "login." + d || name == "portal." + d || name == "graph." + d
  }

  predicate FromOrigin(origins: seq<string>, isIp: string -> bool, name: string) {
    NeedsEntry(name, isIp) && exists o <- origins :: name == OriginHostname(o)
  }

  predicate FromDomain(domains: seq<string>, isIp: string -> bool, name: string) {
    exists d <- domains :: NeedsEntry(Domain(d), isIp) && OfDomain(name, Domain(d))
  }

  /** A name the configuration asks for: an origin's host, the base domain, or an extra domain with its subdomains. */
  predicate Desired(c: Config, isIp: string -> bool, name: string) {
    || FromOrigin([c.origins.login, c.origins.portal, c.origins.graph], isIp, name)
    || (name == Domain(c.baseDomain) && NeedsEntry(name, isIp))
    || FromDomain(c.localDomains, isIp, name)
  }

  lemma OneMoreOrigin(origins: seq<string>, i: nat, isIp: string -> bool, name: string)
    requires i < |origins|
    ensures FromOrigin(origins[..i + 1], isIp, name)
            <==> FromOrigin(origins[..i], isIp, name) || (NeedsEntry(name, isIp) && name == OriginHostname(origins[i]))
  {
    assert origins[..i + 1] == origins[..i] + [origins[i]];
  }

  lemma OneMoreDomain(domains: seq<string>, i: nat, isIp: string -> bool, name: string)
    requires i < |domains|
    ensures var d := Domain(domains[i]);
            FromDomain(domains[..i + 1], isIp, name)
            <==> FromDomain(domains[..i], isIp, name) || (NeedsEntry(d, isIp) && OfDomain(name, d))
  {
    assert domains[..i + 1] == domains[..i] + [domains[i]];
  }

  lemma DomainAdded(domains: seq<string>, i: nat, isIp: string -> bool, before: set<string>, after: set<string>)
    requires i < |domains| && forall n :: n in before <==> FromDomain(domains[..i], isIp, n)
    requires var d := Domain(domains[i]);
             forall n :: n in after <==> n in before || (NeedsEntry(d, isIp) && OfDomain(n, d))
    ensures forall n :: n in after <==> FromDomain(domains[..i + 1], isIp, n)
  {
    forall n ensures n in after <==> FromDomain(domains[..i + 1], isIp, n) {
      OneMoreDomain(domains, i, isIp, n);
    }
  }

  /** The hosts of the advertised origins. */
  method OriginNames(origins: seq<string>, isIp: string -> bool) returns (names: set<string>)
    ensures forall n :: n in names <==> FromOrigin(origins, isIp, n)
  {
    names := {};
    for i := 0 to |origins|
      invariant forall n :: n in names <==> FromOrigin(origins[..i], isIp, n)
    {
      forall n { OneMoreOrigin(origins, i, isIp, n); }
      var host := OriginHostname(origins[i]);
      if NeedsEntry(host, isIp) {
        names := names + {host};
      }
    }
    assert origins[..|origins|] == origins;
  }

  /** The extra domains, each with its subdomains. */
  method DomainNames(domains: seq<string>, isIp: string -> bool) returns (names: set<string>)
    ensures forall n :: n in names <==> FromDomain(domains, isIp, n)
  {
    names := {};
    for i := 0 to |domains|
      invariant forall n :: n in names <==> FromDomain(domains[..i], isIp, n)
    {
      ghost var before := names;
      var d := Domain(domains[i]);
      if NeedsEntry(d, isIp) {
        names := names + {d, "login." + d, "portal." + d, "graph." + d};
      }
      DomainAdded(domains, i, isIp, before, names);
    }
    assert domains[..|domains|] == domains;
  }

  /** The set is filled with exactly the desired names. */
  method DesiredHostNames(c: Config, isIp: string -> bool) returns (names: set<string>)
    ensures forall n :: n in names <==> Desired(c, isIp, n)
  {
    names := OriginNames([c.origins.login, c.origins.portal, c.origins.graph], isIp);
    var base := Domain(c.baseDomain);
    if NeedsEntry(base, isIp) {
      names := names + {base};
    }
    var extra := DomainNames(c.localDomains, isIp);
    names := names + extra;
  }

  // --- the desired names hold no capital, so no marker -------------------------------------------

  predicate NoCapital(s: string) { forall i | 0 <= i < |s| :: !('A' <= s[i] <= 'Z') }

  lemma LowerCaseHasNoCapital(s: string)
    ensures NoCapital(LowerCase(s))
  {}

  lemma PartHasNoCapital(s: string, part: string, from: nat)
    requires NoCapital(s) && from <= |s| && part <= s[from..]
    ensures NoCapital(part)
  {
    assert forall i | 0 <= i < |part| :: part[i] == s[from + i];
  }

  lemma HostHasNoCapital(authority: string)
    ensures NoCapital(HostOf(authority))
  {
    var h := LowerCase(authority);
    LowerCaseHasNoCapital(authority);
    if HasBrackets(authority) {
      PartHasNoCapital(h, Inner(authority), 1);
    } else {
      PartHasNoCapital(h, UpTo(h, ':'), 0);
    }
  }

  lemma OriginHostnameHasNoCapital(origin: string)
    ensures NoCapital(OriginHostname(origin))
  {
    HostHasNoCapital(Authority(origin));
  }

  lemma NoCapitalConcat(a: string, b: string)
    requires NoCapital(a) && NoCapital(b)
    ensures NoCapital(a + b)
  {}

  lemma SubdomainHasNoCapital(d: string, name: string)
    requires NoCapital(d) && OfDomain(name, d)
    ensures NoCapital(name)
  {
    var login, portal, graph := "login.", "portal.", "graph.";
    NoCapitalConcat(login, d);
    NoCapitalConcat(portal, d);
    NoCapitalConcat(graph, d);
  }

  lemma DesiredHasNoCapital(c: Config, isIp: string -> bool, name: string)
    requires Desired(c, isIp, name)
    ensures NoCapital(name)
  {
    var origins := [c.origins.login, c.origins.portal, c.origins.graph];
    if FromOrigin(origins, isIp, name) {
      var o :| o in origins && name == OriginHostname(o);
      OriginHostnameHasNoCapital(o);
    } else if FromDomain(c.localDomains, isIp, name) {
      var d :| d in c.localDomains && OfDomain(name, Domain(d));
      LowerCaseHasNoCapital(Trim(d));
      SubdomainHasNoCapital(Domain(d), name);
    } else {
      LowerCaseHasNoCapital(Trim(c.baseDomain));
    }
  }

  /** No name the program writes holds the end marker, whose text has capitals. */
  lemma DesiredNamesAreEndFree(c: Config, isIp: string -> bool, names: seq<string>)
    requires forall n <- names :: Desired(c, isIp, n)
    ensures MANAGED.EndFree(names)
  {
    forall n <- names ensures !Contains(n, MANAGED.end) {
      DesiredHasNoCapital(c, isIp, n);
      assert MANAGED.end[14] == 'E';
      forall i ensures !At(n, MANAGED.end, i) {
        assert 0 <= i && i + 14 < |n| ==> n[i + 14] != 'E';
      }
    }
  }

  /**
   * The program's own runs are absorbed by whatever run comes next, on every clean file and whatever is
   * configured: its names, in any order, need no further condition.
   */
  lemma ProgramRunsAreAbsorbed(content: string, c: Config, isIp: string -> bool, names: seq<string>, action: Action,
                               second: seq<string>, action': Action)
    requires MANAGED.Clean(content)
    requires forall n <- names :: Desired(c, isIp, n)
    ensures MANAGED.Update(MANAGED.Update(content, names, action), second, action')
            == MANAGED.Update(content, second, action')
  {
    ManagedMarkersAreValid();
    DesiredNamesAreEndFree(c, isIp, names);
    MANAGED.LastRunWins(content, names, action, second, action');
  }
}
