/** Accepting an experiment: the facts gathered about its hosts, the VALIDATE checks, and the agent's own
    setup checks, which must agree with them. */
module Validation {
  import opened Lifecycle
  import opened Charset
  import opened Hostnames
  import opened Params

  datatype ActionDefinition = ActionDefinition(
    hosts: seq<string>,
    plugin: string,
    version: string,
    params: Args,
    durationSecs: nat)

  type Definition = seq<ActionDefinition>

  datatype CatalogEntry = CatalogEntry(schema: Schema, maxDurationSecs: nat, digest: string)

  type Catalog = map<(string, string), CatalogEntry>

  datatype HostFacts = HostFacts(registered: bool, connected: bool, tainted: bool)

  datatype Failure =
    | NoActions
    | NoHosts(action: nat)
    | UnknownPlugin(action: nat, name: string, version: string)
    | InvalidParams(action: nat, error: ParamsError)
    | ZeroDuration(action: nat)
    | DurationOverMax(action: nat, durationSecs: nat, maxSecs: nat)
    | HostnameNotIdSafe(action: nat, host: string)
    | DuplicateHost(action: nat, host: string)
    | HostUnknown(action: nat, host: string)
    | HostDisconnected(action: nat, host: string)
    | HostTainted(action: nat, host: string)

  // ----- Host facts -----

  /** The master's registry (quarantine flag per registered host) and its live sessions. */
  datatype Fleet = Fleet(registry: map<string, bool>, connected: set<string>)

  function FactsOf(fleet: Fleet, host: string): HostFacts {
    HostFacts(host in fleet.registry, host in fleet.connected, host in fleet.registry && fleet.registry[host])
  }

  predicate Named(definition: Definition, host: string) {
    exists a :: 0 <= a < |definition| && host in definition[a].hosts
  }

  /** What the registry and the sessions say of exactly the targets that parse. */
  ghost predicate Gathered(facts: map<string, HostFacts>, definition: Definition, fleet: Fleet) {
    && (forall host :: host in facts <==> Named(definition, host) && Parse(host).Parsed?)
    && (forall host :: host in facts ==>
          var name := Parse(host).name;
          facts[host] == HostFacts(name in fleet.registry, name in fleet.connected,
                                   name in fleet.registry && fleet.registry[name]))
  }

  /** Facts for exactly the target hosts that parse; the others stay unregistered. */
  method GatherHostFacts(definition: Definition, fleet: Fleet) returns (facts: map<string, HostFacts>)
    ensures Gathered(facts, definition, fleet)
  {
    facts := map[];
    for a := 0 to |definition|
      invariant forall host :: host in facts <==>
                                 (exists b :: 0 <= b < a && host in definition[b].hosts) && Parse(host).Parsed?
      invariant forall host :: host in facts ==> facts[host] == FactsOf(fleet, Parse(host).name)
    {
      var hosts := definition[a].hosts;
      ghost var before := facts.Keys;
      for h := 0 to |hosts|
        invariant forall host :: host in facts <==> host in before || (host in hosts[..h] && Parse(host).Parsed?)
        invariant forall host :: host in facts ==> facts[host] == FactsOf(fleet, Parse(host).name)
      {
        var host := hosts[h];
        assert hosts[..h + 1] == hosts[..h] + [host];
        if host in facts {
          continue;
        }
        var parsed := Parse(host);
        if parsed.Refused? {
          continue;
        }
        facts := facts[host := FactsOf(fleet, parsed.name)];
      }
      assert hosts[..|hosts|] == hosts;
    }
  }

  // ----- VALIDATE -----

  function KnownFacts(facts: map<string, HostFacts>, host: string): HostFacts {
    if host in facts then facts[host] else HostFacts(false, false, false)
  }

  predicate Repeated(hosts: seq<string>, host: string) {
    exists j, k :: 0 <= j < k < |hosts| && hosts[j] == host && hosts[k] == host
  }

  /** What it means for action `a` of the definition to fail a check. Charset comes before host facts,
      and of those only the first that fails counts. */
  predicate ActionFails(def: ActionDefinition, a: nat, catalog: Catalog, facts: map<string, HostFacts>, f: Failure) {
    var key := (def.plugin, def.version);
    match f
    case NoActions => false
    case NoHosts(action) => action == a && def.hosts == []
    case UnknownPlugin(action, name, version) => action == a && key !in catalog && (name, version) == key
    case InvalidParams(action, error) =>
      action == a && key in catalog && ValidateParams(catalog[key].schema, def.params) == Invalid(error)
    case ZeroDuration(action) => action == a && def.durationSecs == 0
    case DurationOverMax(action, duration, max) =>
      && action == a && key in catalog
      && duration == def.durationSecs && max == catalog[key].maxDurationSecs && duration > max
    case DuplicateHost(action, host) => action == a && Repeated(def.hosts, host)
    case HostnameNotIdSafe(action, host) => action == a && host in def.hosts && !HostnameIdSafe(host)
    case HostUnknown(action, host) =>
      action == a && host in def.hosts && HostnameIdSafe(host) && !KnownFacts(facts, host).registered
    case HostDisconnected(action, host) =>
      action == a && host in def.hosts && HostnameIdSafe(host)
      && KnownFacts(facts, host).registered && !KnownFacts(facts, host).connected
    case HostTainted(action, host) =>
      action == a && host in def.hosts && HostnameIdSafe(host)
      && KnownFacts(facts, host).registered && KnownFacts(facts, host).connected && KnownFacts(facts, host).tainted
  }

  predicate Fails(definition: Definition, catalog: Catalog, facts: map<string, HostFacts>, f: Failure) {
    || (f.NoActions? && definition == [])
    || exists a :: 0 <= a < |definition| && ActionFails(definition[a], a, catalog, facts, f)
  }

  /** The failures of the plugin reference, the parameters and the duration. */
  method CheckPlugin(def: ActionDefinition, a: nat, catalog: Catalog) returns (failures: seq<Failure>)
    ensures forall f :: f in failures <==>
                          (f.UnknownPlugin? || f.InvalidParams? || f.DurationOverMax? || f.ZeroDuration? || f.NoHosts?)
                          && ActionFails(def, a, catalog, map[], f)
  {
    failures := [];
    if def.hosts == [] {
      failures := failures + [NoHosts(a)];
    }
    var key := (def.plugin, def.version);
    if key !in catalog {
      failures := failures + [UnknownPlugin(a, def.plugin, def.version)];
    } else {
      var verdict := ValidateParams(catalog[key].schema, def.params);
      if verdict.Invalid? {
        failures := failures + [InvalidParams(a, verdict.error)];
      }
      if def.durationSecs > catalog[key].maxDurationSecs {
        failures := failures + [DurationOverMax(a, def.durationSecs, catalog[key].maxDurationSecs)];
      }
    }
    if def.durationSecs == 0 {
      failures := failures + [ZeroDuration(a)];
    }
  }

  /** The first failing check of a host that is not a repetition. */
  function HostFailures(a: nat, host: string, known: HostFacts): seq<Failure> {
    if !HostnameIdSafe(host) then [HostnameNotIdSafe(a, host)]
    else if !known.registered then [HostUnknown(a, host)]
    else if !known.connected then [HostDisconnected(a, host)]
    else if known.tainted then [HostTainted(a, host)]
    else []
  }

  /** Some listed host fails its own checks with `f`. */
  predicate SomeHostFails(hosts: seq<string>, a: nat, facts: map<string, HostFacts>, f: Failure) {
    exists h :: h in hosts && f in HostFailures(a, h, KnownFacts(facts, h))
  }

  predicate HostsFail(hosts: seq<string>, a: nat, facts: map<string, HostFacts>, f: Failure) {
    (f.DuplicateHost? && f.action == a && Repeated(hosts, f.host)) || SomeHostFails(hosts, a, facts, f)
  }

  /** The failures of the target hosts: the repeated ones, and the others that fail a check of their own. */
  method CheckHosts(hosts: seq<string>, a: nat, facts: map<string, HostFacts>) returns (failures: seq<Failure>)
    ensures forall f :: f in failures <==> HostsFail(hosts, a, facts, f)
  {
    failures := [];
    var seen: set<string> := {};
    for n := 0 to |hosts|
      invariant seen == set h | h in hosts[..n]
      invariant forall f :: f in failures <==> HostsFail(hosts[..n], a, facts, f)
    {
      var host := hosts[n];
      OneMoreFails(hosts, n, a, facts);
      assert hosts[..n + 1] == hosts[..n] + [host];
      if host in seen {
        failures := failures + [DuplicateHost(a, host)];
      } else {
        seen := seen + {host};
        failures := failures + HostFailures(a, host, KnownFacts(facts, host));
      }
    }
    assert hosts[..|hosts|] == hosts;
  }

  lemma OneMoreHost(hosts: seq<string>, n: nat)
    requires n < |hosts|
    ensures forall h :: h in hosts[..n + 1] <==> h in hosts[..n] || h == hosts[n]
    ensures forall h :: Repeated(hosts[..n + 1], h) <==> Repeated(hosts[..n], h) || (h == hosts[n] && h in hosts[..n])
  {
    var was, now := hosts[..n], hosts[..n + 1];
    assert now == was + [hosts[n]];
    forall h
      ensures Repeated(now, h) <==> Repeated(was, h) || (h == hosts[n] && h in was)
    {
      if Repeated(was, h) {
        var j, k :| 0 <= j < k < |was| && was[j] == h && was[k] == h;
        assert now[j] == h && now[k] == h;
      }
      if h == hosts[n] && h in was {
        var j :| 0 <= j < |was| && was[j] == h;
        assert now[j] == h && now[n] == h;
      }
      if Repeated(now, h) {
        var j, k :| 0 <= j < k < |now| && now[j] == h && now[k] == h;
        assert was[j] == h;
        assert k < n ==> was[k] == h;
      }
    }
  }

  /** One more host adds its own failures, or the one failure of being a repetition. */
  lemma OneMoreFails(hosts: seq<string>, n: nat, a: nat, facts: map<string, HostFacts>)
    requires n < |hosts|
    ensures forall f :: HostsFail(hosts[..n + 1], a, facts, f) <==>
              || HostsFail(hosts[..n], a, facts, f)
              || if hosts[n] in hosts[..n] then f == DuplicateHost(a, hosts[n])
                 else f in HostFailures(a, hosts[n], KnownFacts(facts, hosts[n]))
  {
    OneMoreHost(hosts, n);
    var was, now, host := hosts[..n], hosts[..n + 1], hosts[n];
    forall f
      ensures HostsFail(now, a, facts, f) <==>
              || HostsFail(was, a, facts, f)
              || if host in was then f == DuplicateHost(a, host)
                 else f in HostFailures(a, host, KnownFacts(facts, host))
    {
      if SomeHostFails(now, a, facts, f) {
        var h :| h in now && f in HostFailures(a, h, KnownFacts(facts, h));
        assert h in was || h == host;
      }
      if SomeHostFails(was, a, facts, f) {
        var h :| h in was && f in HostFailures(a, h, KnownFacts(facts, h));
        assert h in now;
      }
      assert host in now;
    }
  }

  /** VALIDATE is sound and complete: the list holds exactly the failing checks. */
  method Validate(definition: Definition, catalog: Catalog, facts: map<string, HostFacts>)
    returns (failures: seq<Failure>)
    ensures forall f :: f in failures <==> Fails(definition, catalog, facts, f)
  {
    failures := if definition == [] then [NoActions] else [];
    for a := 0 to |definition|
      invariant forall f :: f in failures <==>
                              || (f.NoActions? && definition == [])
                              || exists b :: 0 <= b < a && ActionFails(definition[b], b, catalog, facts, f)
    {
      var def := definition[a];
      var plugin := CheckPlugin(def, a, catalog);
      var hosts := CheckHosts(def.hosts, a, facts);
      forall f
        ensures f in plugin + hosts <==> ActionFails(def, a, catalog, facts, f)
      {
        HostFailuresAreChecks(def, a, catalog, facts, f);
      }
      failures := failures + (plugin + hosts);
    }
  }

  lemma HostFailuresAreChecks(def: ActionDefinition, a: nat, catalog: Catalog, facts: map<string, HostFacts>,
                              f: Failure)
    ensures SomeHostFails(def.hosts, a, facts, f) <==>
            (f.HostnameNotIdSafe? || f.HostUnknown? || f.HostDisconnected? || f.HostTainted?)
            && ActionFails(def, a, catalog, facts, f)
  {
    if (f.HostnameNotIdSafe? || f.HostUnknown? || f.HostDisconnected? || f.HostTainted?)
       && ActionFails(def, a, catalog, facts, f)
    {
      assert f.host in def.hosts && f in HostFailures(a, f.host, KnownFacts(facts, f.host));
    }
  }

  // ----- What acceptance means -----

  ghost predicate Accepted(definition: Definition, catalog: Catalog, facts: map<string, HostFacts>) {
    forall f :: !Fails(definition, catalog, facts, f)
  }

  predicate Distinct(hosts: seq<string>) {
    forall j, k :: 0 <= j < k < |hosts| ==> hosts[j] != hosts[k]
  }

  /** An action of an accepted definition: it has hosts, each once; every host parses to itself, is
      registered, connected and untainted; its plugin exists, its parameters conform, its duration fits. */
  predicate Sound(def: ActionDefinition, catalog: Catalog, fleet: Fleet) {
    && def.hosts != [] && Distinct(def.hosts) && PluginFits(def, catalog)
    && forall k :: 0 <= k < |def.hosts| ==> GoodHost(fleet, def.hosts[k])
  }

  predicate GoodHost(fleet: Fleet, host: string) {
    && HostnameIdSafe(host) && Parse(host) == Parsed(host)
    && host in fleet.registry && !fleet.registry[host] && host in fleet.connected
  }

  predicate PluginFits(def: ActionDefinition, catalog: Catalog) {
    var key := (def.plugin, def.version);
    && key in catalog && ValidateParams(catalog[key].schema, def.params).Valid?
    && 0 < def.durationSecs <= catalog[key].maxDurationSecs
  }

  /** Nothing fails of action `a`, so its targets are distinct. */
  lemma AcceptedAreDistinct(def: ActionDefinition, a: nat, catalog: Catalog, facts: map<string, HostFacts>)
    requires forall f :: !ActionFails(def, a, catalog, facts, f)
    ensures Distinct(def.hosts)
  {
    forall j, k | 0 <= j < k < |def.hosts|
      ensures def.hosts[j] != def.hosts[k]
    {
      assert def.hosts[j] == def.hosts[k] ==> Repeated(def.hosts, def.hosts[j]);
      assert !ActionFails(def, a, catalog, facts, DuplicateHost(a, def.hosts[j]));
    }
  }

  lemma AcceptedPluginFits(def: ActionDefinition, a: nat, catalog: Catalog, facts: map<string, HostFacts>)
    requires forall f :: !ActionFails(def, a, catalog, facts, f)
    ensures def.hosts != [] && PluginFits(def, catalog)
  {
    var key := (def.plugin, def.version);
    assert !ActionFails(def, a, catalog, facts, NoHosts(a));
    assert !ActionFails(def, a, catalog, facts, UnknownPlugin(a, def.plugin, def.version));
    assert !ActionFails(def, a, catalog, facts, ZeroDuration(a));
    var verdict := ValidateParams(catalog[key].schema, def.params);
    assert verdict.Invalid? ==> ActionFails(def, a, catalog, facts, InvalidParams(a, verdict.error));
    assert !ActionFails(def, a, catalog, facts, DurationOverMax(a, def.durationSecs, catalog[key].maxDurationSecs));
  }

  lemma AcceptedHostIsGood(definition: Definition, a: nat, catalog: Catalog, facts: map<string, HostFacts>,
                           fleet: Fleet, host: string)
    requires Gathered(facts, definition, fleet) && a < |definition| && host in definition[a].hosts
    requires forall f :: !ActionFails(definition[a], a, catalog, facts, f)
    ensures GoodHost(fleet, host)
  {
    var def := definition[a];
    assert !ActionFails(def, a, catalog, facts, HostnameNotIdSafe(a, host));
    assert !ActionFails(def, a, catalog, facts, HostUnknown(a, host));
    assert !ActionFails(def, a, catalog, facts, HostDisconnected(a, host));
    assert !ActionFails(def, a, catalog, facts, HostTainted(a, host));
    assert host in facts;
    IdSafeParsesToItself(host);
  }

  lemma AcceptedActionIsSound(definition: Definition, catalog: Catalog, facts: map<string, HostFacts>,
                              fleet: Fleet, a: nat)
    requires Accepted(definition, catalog, facts) && Gathered(facts, definition, fleet) && a < |definition|
    ensures Sound(definition[a], catalog, fleet)
  {
    var def := definition[a];
    forall f
      ensures !ActionFails(def, a, catalog, facts, f)
    {
      assert !Fails(definition, catalog, facts, f);
    }
    AcceptedPluginFits(def, a, catalog, facts);
    AcceptedAreDistinct(def, a, catalog, facts);
    forall k | 0 <= k < |def.hosts|
      ensures GoodHost(fleet, def.hosts[k])
    {
      AcceptedHostIsGood(definition, a, catalog, facts, fleet, def.hosts[k]);
    }
  }

  /** The host failures in terms of the registry and the sessions themselves: a target that is a name at all
      is listed as unknown, disconnected or tainted exactly when it is; one that is not is unknown. */
  lemma HostFailsAsItIs(definition: Definition, a: nat, catalog: Catalog, facts: map<string, HostFacts>,
                        fleet: Fleet, host: string)
    requires Gathered(facts, definition, fleet) && a < |definition| && host in definition[a].hosts
    requires HostnameIdSafe(host)
    ensures Fails(definition, catalog, facts, HostUnknown(a, host)) <==>
            Parse(host).Refused? || host !in fleet.registry
    ensures Fails(definition, catalog, facts, HostDisconnected(a, host)) <==>
            Parse(host).Parsed? && host in fleet.registry && host !in fleet.connected
    ensures Fails(definition, catalog, facts, HostTainted(a, host)) <==>
            Parse(host).Parsed? && host in fleet.registry && host in fleet.connected && fleet.registry[host]
  {
    if Parse(host).Parsed? {
      IdSafeParsesToItself(host);
    }
    assert Named(definition, host);
    FailsInItsAction(definition, a, catalog, facts, HostUnknown(a, host));
    FailsInItsAction(definition, a, catalog, facts, HostDisconnected(a, host));
    FailsInItsAction(definition, a, catalog, facts, HostTainted(a, host));
  }

  lemma FailsInItsAction(definition: Definition, a: nat, catalog: Catalog, facts: map<string, HostFacts>, f: Failure)
    requires a < |definition| && (f.HostUnknown? || f.HostDisconnected? || f.HostTainted?) && f.action == a
    ensures Fails(definition, catalog, facts, f) <==> ActionFails(definition[a], a, catalog, facts, f)
  {
  }

  /** Acceptance, in full: there is something to do, and every action of it is sound. */
  lemma AcceptedIff(definition: Definition, catalog: Catalog, facts: map<string, HostFacts>, fleet: Fleet)
    requires Gathered(facts, definition, fleet)
    ensures Accepted(definition, catalog, facts) <==>
            definition != [] && forall a :: 0 <= a < |definition| ==> Sound(definition[a], catalog, fleet)
  {
    if Accepted(definition, catalog, facts) {
      assert !Fails(definition, catalog, facts, NoActions);
      forall a | 0 <= a < |definition|
        ensures Sound(definition[a], catalog, fleet)
      {
        AcceptedActionIsSound(definition, catalog, facts, fleet, a);
      }
    }
    if definition != [] && forall a :: 0 <= a < |definition| ==> Sound(definition[a], catalog, fleet) {
      forall f
        ensures !Fails(definition, catalog, facts, f)
      {
        forall a | 0 <= a < |definition|
          ensures !ActionFails(definition[a], a, catalog, facts, f)
        {
          SoundFailsNothing(definition, a, catalog, facts, fleet, f);
        }
      }
    }
  }

  lemma SoundFailsNothing(definition: Definition, a: nat, catalog: Catalog, facts: map<string, HostFacts>,
                          fleet: Fleet, f: Failure)
    requires Gathered(facts, definition, fleet) && a < |definition| && Sound(definition[a], catalog, fleet)
    ensures !ActionFails(definition[a], a, catalog, facts, f)
  {
  }

  // ----- The agent's setup -----

  datatype SetupError =
    | HostIsTainted
    | BadDigest
    | BadPluginName
    | BadPluginVersion
    | NotInCatalog
    | DigestMismatch
    | NotAnObject
    | BadParams(error: ParamsError)
    | OverMaxDuration

  datatype SetupResult = Ready | Refusal(error: SetupError)

  predicate WellFormedDigest(s: string) {
    |s| == 64 && forall k :: 0 <= k < |s| ==> '0' <= s[k] <= '9' || 'a' <= s[k] <= 'f'
  }

  predicate WellFormedName(s: string) {
    s != "" && forall k :: 0 <= k < |s| ==> 'a' <= s[k] <= 'z' || '0' <= s[k] <= '9' || s[k] == '-'
  }

  predicate WellFormedVersion(s: string) {
    forall k :: 0 <= k < |s| ==> IsAlphanumeric(s[k]) || s[k] in {'.', '_', '+', '-'}
  }

  /** What loading a catalog from disk guarantees of its entries. */
  predicate Loaded(catalog: Catalog) {
    forall key :: key in catalog ==>
      WellFormedName(key.0) && WellFormedVersion(key.1) && WellFormedDigest(catalog[key].digest)
  }

  /** The checks in their order. `disk` holds the plugins that load; `params` is None when what arrived
      is no JSON object. */
  function SetupVerdict(tainted: bool, disk: Catalog, plugin: string, version: string, digest: string,
                        params: Option<Args>, durationSecs: nat): SetupResult
  {
    if tainted then Refusal(HostIsTainted)
    else if !WellFormedDigest(digest) then Refusal(BadDigest)
    else if !WellFormedName(plugin) then Refusal(BadPluginName)
    else if !WellFormedVersion(version) then Refusal(BadPluginVersion)
    else if (plugin, version) !in disk then Refusal(NotInCatalog)
    else if disk[(plugin, version)].digest != digest then Refusal(DigestMismatch)
    else if params.None? then Refusal(NotAnObject)
    else
      var entry := disk[(plugin, version)];
      var verdict := ValidateParams(entry.schema, params.value);
      if verdict.Invalid? then Refusal(BadParams(verdict.error))
      else if durationSecs > entry.maxDurationSecs then Refusal(OverMaxDuration)
      else Ready
  }

  /** What setup objects to, check by check. */
  predicate Objects(error: SetupError, tainted: bool, disk: Catalog, plugin: string, version: string, digest: string,
                    params: Option<Args>, durationSecs: nat)
  {
    var key := (plugin, version);
    match error
    case HostIsTainted => tainted
    case BadDigest => |digest| != 64 || !Over(digest, DIGITS + "abcdef")
    case BadPluginName => plugin == "" || !Over(plugin, LOWER + DIGITS + "-")
    case BadPluginVersion => !Over(version, LETTERS + DIGITS + "._+-")
    case NotInCatalog => key !in disk
    case DigestMismatch => key in disk && disk[key].digest != digest
    case NotAnObject => params.None?
    case BadParams(why) => key in disk && params.Some? && ValidateParams(disk[key].schema, params.value) == Invalid(why)
    case OverMaxDuration => key in disk && disk[key].maxDurationSecs < durationSecs
  }

  function Place(error: SetupError): nat {
    match error
    case HostIsTainted => 0
    case BadDigest => 1
    case BadPluginName => 2
    case BadPluginVersion => 3
    case NotInCatalog => 4
    case DigestMismatch => 5
    case NotAnObject => 6
    case BadParams(_) => 7
    case OverMaxDuration => 8
  }

  /** Setup refuses exactly when there is something to object to, and says what comes first. */
  lemma SetupObjects(tainted: bool, disk: Catalog, plugin: string, version: string, digest: string,
                     params: Option<Args>, durationSecs: nat)
    ensures var verdict := SetupVerdict(tainted, disk, plugin, version, digest, params, durationSecs);
            && (verdict.Ready? <==>
                  forall e :: !Objects(e, tainted, disk, plugin, version, digest, params, durationSecs))
            && (verdict.Refusal? ==>
                  && Objects(verdict.error, tainted, disk, plugin, version, digest, params, durationSecs)
                  && forall e :: Objects(e, tainted, disk, plugin, version, digest, params, durationSecs) ==>
                       Place(verdict.error) <= Place(e))
  {
    TextChecksAre(plugin, version, digest);
    var verdict := SetupVerdict(tainted, disk, plugin, version, digest, params, durationSecs);
    if verdict.Refusal? {
      assert Objects(verdict.error, tainted, disk, plugin, version, digest, params, durationSecs);
    }
  }

  lemma TextChecksAre(plugin: string, version: string, digest: string)
    ensures WellFormedDigest(digest) <==> |digest| == 64 && Over(digest, DIGITS + "abcdef")
    ensures WellFormedName(plugin) <==> plugin != "" && Over(plugin, LOWER + DIGITS + "-")
    ensures WellFormedVersion(version) <==> Over(version, LETTERS + DIGITS + "._+-")
  {
    AllAlphanumericAre();
    HexIs();
    NameLettersAre();
    assert forall c :: c in LETTERS + DIGITS + "._+-" <==> c in LETTERS + DIGITS || c in {'.', '_', '+', '-'};
  }

  lemma HexIs()
    ensures forall c: char :: c in DIGITS + "abcdef" <==> '0' <= c <= '9' || 'a' <= c <= 'f'
  {
    forall c: char
      ensures c in DIGITS + "abcdef" <==> '0' <= c <= '9' || 'a' <= c <= 'f'
    {
      DigitsAre(c);
      assert 'a' <= c <= 'f' ==> "abcdef"[c as int - 'a' as int] == c;
    }
  }

  lemma NameLettersAre()
    ensures forall c: char :: c in LOWER + DIGITS + "-" <==> 'a' <= c <= 'z' || '0' <= c <= '9' || c == '-'
  {
    forall c: char
      ensures c in LOWER + DIGITS + "-" <==> 'a' <= c <= 'z' || '0' <= c <= '9' || c == '-'
    {
      LowerIs(c);
      DigitsAre(c);
      hide LOWER, DIGITS;
    }
  }

  /** The two ends agree: what VALIDATE accepted passes the setup of an agent with the same catalog
      exactly when the agent's host is not tainted at that moment. */
  lemma AcceptedPassesSetup(definition: Definition, catalog: Catalog, facts: map<string, HostFacts>, fleet: Fleet,
                            a: nat, tainted: bool)
    requires Loaded(catalog) && Accepted(definition, catalog, facts)
    requires Gathered(facts, definition, fleet) && a < |definition|
    ensures var def := definition[a];
            && (def.plugin, def.version) in catalog
            && var digest := catalog[(def.plugin, def.version)].digest;
               var verdict := SetupVerdict(tainted, catalog, def.plugin, def.version, digest, Some(def.params),
                                           def.durationSecs);
               (verdict.Ready? <==> !tainted)
  {
    AcceptedActionIsSound(definition, catalog, facts, fleet, a);
  }
}
