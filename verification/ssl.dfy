/** Certificate selection of `src/ssl.rs`: the per-domain certificate map, the
    choice made for a TLS handshake from its server name (SNI), and the setup
    that registers the certificates present on disk and picks the default.
    File existence and certificate loading are parameters. */
module Ssl {
  import opened Wrappers

  /** A certificate chain file and its private key file. */
  datatype CertPair = CertPair(cert: string, key: string)

  /** `MultiCertManager`: domain to certificate pair. */
  type CertManager = map<string, CertPair>

  /** `add_certificate`: the domain's pair is set, replacing an earlier one. */
  function AddCertificate(m: CertManager, domain: string, cert: string, key: string): (r: CertManager)
    ensures domain in r && r[domain] == CertPair(cert, key)
    ensures r.Keys == m.Keys + {domain}
    ensures forall d :: d in m && d != domain ==> r[d] == m[d]
  {
    m[domain := CertPair(cert, key)]
  }

  /** What `certificate_callback` installs on the connection: the chain file and
      the key file it loaded, if any. Nothing installed means the default
      certificate stays in place. */
  datatype Installed = Installed(cert: Option<string>, key: Option<string>)

  /** `certificate_callback`. `certLoads` and `keyLoads` say whether loading a
      file succeeds; the key is not attempted once the chain fails. */
  function CertificateCallback(m: CertManager, sni: Option<string>,
                               certLoads: string -> bool, keyLoads: string -> bool): (r: Installed)
    ensures sni.None? || sni.value !in m ==> r == Installed(None, None)
    ensures r.cert.Some? ==> sni.Some? && sni.value in m && r.cert.value == m[sni.value].cert
    ensures r.key.Some? ==> r.cert.Some? && r.key.value == m[sni.value].key
    ensures sni.Some? && sni.value in m && certLoads(m[sni.value].cert) && keyLoads(m[sni.value].key) ==>
              r == Installed(Some(m[sni.value].cert), Some(m[sni.value].key))
    ensures sni.Some? && sni.value in m && !certLoads(m[sni.value].cert) ==> r == Installed(None, None)
  {
    match sni
    case None => Installed(None, None)
    case Some(name) =>
      if name !in m then Installed(None, None)
      else
        var p := m[name];
        if !certLoads(p.cert) then Installed(None, None)
        else if !keyLoads(p.key) then Installed(Some(p.cert), None)
        else Installed(Some(p.cert), Some(p.key))
  }

  /** A candidate certificate of `configure_ssl`. */
  datatype CertConfig = CertConfig(domain: string, cert: string, key: string)

  /** The candidates `configure_ssl` tries, in order. */
  const CertConfigs: seq<CertConfig> := [
    CertConfig("auth.ad-quest.ru", "/etc/letsencrypt/live/auth.ad-quest.ru/fullchain.pem",
               "/etc/letsencrypt/live/auth.ad-quest.ru/privkey.pem"),
    CertConfig("api.ad-quest.ru", "/etc/letsencrypt/live/api.ad-quest.ru/fullchain.pem",
               "/etc/letsencrypt/live/api.ad-quest.ru/privkey.pem")]

  lemma CertConfigDomainsDistinct()
    ensures forall i, j :: 0 <= i < j < |CertConfigs| ==> CertConfigs[i].domain != CertConfigs[j].domain
  {
  }

  /** A candidate is registered when both its files exist. */
  predicate Present(c: CertConfig, exists_: string -> bool) {
    exists_(c.cert) && exists_(c.key)
  }

  /** The result of `configure_ssl`: the registered certificates, the default pair,
      and whether the TLS listener on 443 is added. */
  datatype SslSetup = SslSetup(manager: CertManager, default: Option<CertPair>, tlsListener: bool)

  /** The manager after trying the first `n` candidates: each present one is added,
      in order. */
  function Registry(configs: seq<CertConfig>, exists_: string -> bool, n: nat): CertManager
    requires n <= |configs|
  {
    if n == 0 then map[]
    else
      var c := configs[n - 1];
      var before := Registry(configs, exists_, n - 1);
      if Present(c, exists_) then AddCertificate(before, c.domain, c.cert, c.key) else before
  }

  /** The first of the first `n` candidates that is present. */
  function FirstPresent(configs: seq<CertConfig>, exists_: string -> bool, n: nat): (r: Option<nat>)
    requires n <= |configs|
    ensures r.Some? ==> r.value < n && Present(configs[r.value], exists_)
    ensures r.Some? ==> forall j :: 0 <= j < r.value ==> !Present(configs[j], exists_)
    ensures r.None? <==> forall k :: 0 <= k < n ==> !Present(configs[k], exists_)
  {
    if n == 0 then None
    else match FirstPresent(configs, exists_, n - 1)
      case Some(k) => Some(k)
      case None => if Present(configs[n - 1], exists_) then Some(n - 1) else None
  }

  /** The pair of candidate `k`, if any. */
  function PairOf(configs: seq<CertConfig>, k: Option<nat>): Option<CertPair>
    requires k.Some? ==> k.value < |configs|
  {
    match k
    case None => None
    case Some(i) => Some(CertPair(configs[i].cert, configs[i].key))
  }

  /** The registered domains are exactly those of the present candidates. */
  lemma {:induction false} RegistryKeys(configs: seq<CertConfig>, exists_: string -> bool, n: nat)
    requires n <= |configs|
    ensures forall d :: d in Registry(configs, exists_, n) <==>
              exists k :: 0 <= k < n && configs[k].domain == d && Present(configs[k], exists_)
  {
    if n > 0 {
      RegistryKeys(configs, exists_, n - 1);
      forall d ensures d in Registry(configs, exists_, n) <==>
                 exists k :: 0 <= k < n && configs[k].domain == d && Present(configs[k], exists_)
      {
        if exists k :: 0 <= k < n && configs[k].domain == d && Present(configs[k], exists_) {
          var k :| 0 <= k < n && configs[k].domain == d && Present(configs[k], exists_);
          if k < n - 1 {
            assert d in Registry(configs, exists_, n - 1);
          }
        }
      }
    }
  }

  /** With distinct domains, every present candidate is registered with its own pair. */
  lemma {:induction false} RegistryValues(configs: seq<CertConfig>, exists_: string -> bool, n: nat)
    requires n <= |configs|
    requires forall a, b :: 0 <= a < b < |configs| ==> configs[a].domain != configs[b].domain
    ensures forall k :: 0 <= k < n && Present(configs[k], exists_) ==>
              configs[k].domain in Registry(configs, exists_, n)
              && Registry(configs, exists_, n)[configs[k].domain] == CertPair(configs[k].cert, configs[k].key)
  {
    if n > 0 {
      RegistryValues(configs, exists_, n - 1);
      forall k | 0 <= k < n - 1 && Present(configs[k], exists_)
        ensures Registry(configs, exists_, n)[configs[k].domain] == CertPair(configs[k].cert, configs[k].key)
      {
        assert configs[k].domain != configs[n - 1].domain;
      }
    }
  }

  /** `configure_ssl` over a list of candidates with distinct domains. `exists_`
      stands for `Path::exists`; `defaultLoads` says whether the TLS settings are
      built and accept the default pair. */
  method ConfigureSsl(configs: seq<CertConfig>, exists_: string -> bool, defaultLoads: bool) returns (r: SslSetup)
    requires forall i, j :: 0 <= i < j < |configs| ==> configs[i].domain != configs[j].domain
    ensures forall d :: d in r.manager <==> exists i :: 0 <= i < |configs| && configs[i].domain == d && Present(configs[i], exists_)
    ensures forall i :: 0 <= i < |configs| && Present(configs[i], exists_) ==>
              r.manager[configs[i].domain] == CertPair(configs[i].cert, configs[i].key)
    ensures r.default.None? <==> forall i :: 0 <= i < |configs| ==> !Present(configs[i], exists_)
    ensures r.default.Some? ==>
              (exists i :: 0 <= i < |configs| && Present(configs[i], exists_)
                 && r.default.value == CertPair(configs[i].cert, configs[i].key)
                 && forall j :: 0 <= j < i ==> !Present(configs[j], exists_))
    ensures r.tlsListener <==> r.default.Some? && defaultLoads
  {
    var m: CertManager := map[];
    var def: Option<CertPair> := None;
    for i := 0 to |configs|
      invariant m == Registry(configs, exists_, i)
      invariant def == PairOf(configs, FirstPresent(configs, exists_, i))
    {
      var c := configs[i];
      if exists_(c.cert) && exists_(c.key) {
        m := AddCertificate(m, c.domain, c.cert, c.key);
        if def.None? {
          def := Some(CertPair(c.cert, c.key));
        }
      }
    }
    RegistryKeys(configs, exists_, |configs|);
    RegistryValues(configs, exists_, |configs|);
    var first := FirstPresent(configs, exists_, |configs|);
    if first.Some? {
      assert def.value == CertPair(configs[first.value].cert, configs[first.value].key);
    }
    r := SslSetup(m, def, def.Some? && defaultLoads);
  }

  /** With the built-in candidates: when both certificates are on disk, the default
      is the `auth.ad-quest.ru` pair and both domains are served by SNI. */
  method ConfigureBuiltIn(exists_: string -> bool, defaultLoads: bool) returns (r: SslSetup)
    ensures Present(CertConfigs[0], exists_) ==> r.default == Some(CertPair(CertConfigs[0].cert, CertConfigs[0].key))
    ensures !Present(CertConfigs[0], exists_) && Present(CertConfigs[1], exists_) ==>
              r.default == Some(CertPair(CertConfigs[1].cert, CertConfigs[1].key))
    ensures !Present(CertConfigs[0], exists_) && !Present(CertConfigs[1], exists_) ==>
              r.default.None? && !r.tlsListener && r.manager == map[]
    ensures "auth.ad-quest.ru" in r.manager <==> Present(CertConfigs[0], exists_)
    ensures "api.ad-quest.ru" in r.manager <==> Present(CertConfigs[1], exists_)
  {
    CertConfigDomainsDistinct();
    r := ConfigureSsl(CertConfigs, exists_, defaultLoads);
    if !Present(CertConfigs[0], exists_) && !Present(CertConfigs[1], exists_) {
      assert forall d :: d !in r.manager;
    }
  }

  /** A handshake served by the registered certificates installs, for a known
      server name whose files load, exactly that domain's pair, and otherwise
      keeps the default. */
  lemma HandshakeSelectsDomain(setup: SslSetup, sni: string, certLoads: string -> bool, keyLoads: string -> bool)
    requires sni in setup.manager
    requires certLoads(setup.manager[sni].cert) && keyLoads(setup.manager[sni].key)
    ensures CertificateCallback(setup.manager, Some(sni), certLoads, keyLoads)
            == Installed(Some(setup.manager[sni].cert), Some(setup.manager[sni].key))
    ensures forall other :: other !in setup.manager ==>
              CertificateCallback(setup.manager, Some(other), certLoads, keyLoads) == Installed(None, None)
  {
  }
}
