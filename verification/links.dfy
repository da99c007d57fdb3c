/** The share links the server prints for a user. */
module Links {
  import opened Bytes
  import opened PercentEncoding
  import opened Query
  import opened Accounts
  import opened XrayConfig

  datatype ShareLinks = ShareLinks(vless: Text, lanway: Text, remark: Text)

  predicate OwnDomain(cfg: Config) { cfg.mode == MODE_TLS || cfg.mode == MODE_PROXY }

  /** The address clients are told to connect to. */
  function HostOf(cfg: Config): Text {
    if OwnDomain(cfg) && cfg.publicHost == [] then cfg.tls.domain else cfg.publicHost
  }

  function LabelOf(cfg: Config): (remark: Text)
    ensures remark != []
  {
    if HostOf(cfg) == [] then "Lanway" else HostOf(cfg)
  }

  const ENCRYPTION: Text := "encryption"
  const TYPE: Text := "type"
  const SECURITY: Text := "security"
  const SNI: Text := "sni"
  const HOST: Text := "host"
  const PATH: Text := "path"
  const FP: Text := "fp"
  const FLOW: Text := "flow"
  const PBK: Text := "pbk"
  const SID: Text := "sid"
  const CHROME: Text := "chrome"

  function DomainQuery(cfg: Config): Values {
    map[ENCRYPTION := "none", TYPE := "ws", SECURITY := MODE_TLS, SNI := cfg.tls.domain,
        HOST := cfg.tls.domain, PATH := cfg.tls.wsPath, FP := CHROME]
  }

  function RealityQuery(cfg: Config, u: User): Values {
    if cfg.reality.serverNames == [] then
      map[ENCRYPTION := "none", TYPE := "tcp", SECURITY := MODE_REALITY, FLOW := VISION,
          PBK := cfg.reality.publicKey, SID := u.shortId, FP := CHROME]
    else
      map[ENCRYPTION := "none", TYPE := "tcp", SECURITY := MODE_REALITY, FLOW := VISION,
          SNI := cfg.reality.serverNames[0],
          PBK := cfg.reality.publicKey, SID := u.shortId, FP := CHROME]
  }

  /** The keys differ, by length or by their first byte. */
  lemma KeysDiffer()
    ensures |ENCRYPTION| == 10 && |SECURITY| == 8 && |FP| == 2
    ensures |TYPE| == |HOST| == |PATH| == |FLOW| == 4 && |SNI| == |PBK| == |SID| == 3
    ensures TYPE[0] == 't' && HOST[0] == 'h' && PATH[0] == 'p' && FLOW[0] == 'f'
    ensures PBK[0] == 'p' && SNI[0] == SID[0] == 's' && SNI[1] == 'n' && SID[1] == 'i'
  {
  }

  function LinkQuery(cfg: Config, u: User): Values {
    if OwnDomain(cfg) then DomainQuery(cfg) else RealityQuery(cfg, u)
  }

  /** net.JoinHostPort. */
  function JoinHostPort(host: Text, port: Text): Text {
    if ':' in host then "[" + host + "]:" + port else host + ":" + port
  }

  /** url.URL.String for the parts a link has, up to the fragment. */
  function LinkHead(id: Text, hostPort: Text, query: Text): Text {
    "vless" + "://" + Escape(id, UserPart) + "@" + Escape(hostPort, HostPart) + "?" + query
  }

  function Print(id: Text, hostPort: Text, query: Text, fragment: Text): Text {
    LinkHead(id, hostPort, query) + "#" + Escape(fragment, FragmentPart)
  }

  function VlessLink(cfg: Config, u: User): Text {
    Print(u.id, JoinHostPort(HostOf(cfg), Itoa(cfg.publicPort)), Encode(LinkQuery(cfg, u)), LabelOf(cfg))
  }

  function LanwayLink(vless: Text, remark: Text): Text {
    "lanway://add?config=" + Escape(vless, QueryPart) + "&name=" + Escape(remark, QueryPart)
  }

  method BuildLinks(cfg: Config, u: User) returns (links: ShareLinks)
    ensures links.vless == VlessLink(cfg, u) && links.remark == LabelOf(cfg)
    ensures links.lanway == LanwayLink(VlessLink(cfg, u), LabelOf(cfg))
  {
    var host: Text := cfg.publicHost;
    var q: Values := map[];
    q := q[ENCRYPTION := "none"];
    q := q[TYPE := "tcp"];
    if cfg.mode == MODE_TLS || cfg.mode == MODE_PROXY {
      q := q[TYPE := "ws"];
      assert q == map[ENCRYPTION := "none", TYPE := "ws"];
      q := q[SECURITY := MODE_TLS];
      q := q[SNI := cfg.tls.domain];
      q := q[HOST := cfg.tls.domain];
      q := q[PATH := cfg.tls.wsPath];
      q := q[FP := CHROME];
      if host == [] {
        host := cfg.tls.domain;
      }
    } else {
      q := q[SECURITY := MODE_REALITY];
      q := q[FLOW := VISION];
      if |cfg.reality.serverNames| > 0 {
        q := q[SNI := cfg.reality.serverNames[0]];
      }
      q := q[PBK := cfg.reality.publicKey];
      q := q[SID := u.shortId];
      q := q[FP := CHROME];
    }
    var remark: Text := host;
    if remark == [] {
      remark := "Lanway";
    }
    var vless: Text := Print(u.id, JoinHostPort(host, Itoa(cfg.publicPort)), Encode(q), remark);
    var lanway: Text := LanwayLink(vless, remark);
    links := ShareLinks(vless, lanway, remark);
  }

  /** The name is for the operator only: users who agree in id and short id get the same links, the
      same label and the same client, whatever their names, limits and usage. */
  lemma NamesDoNotLeak(cfg: Config, u: User, w: User)
    requires u.id == w.id && u.shortId == w.shortId
    ensures VlessLink(cfg, u) == VlessLink(cfg, w)
    ensures LanwayLink(VlessLink(cfg, u), LabelOf(cfg)) == LanwayLink(VlessLink(cfg, w), LabelOf(cfg))
    ensures ClientOf(cfg, u) == ClientOf(cfg, w)
  {
  }
}
