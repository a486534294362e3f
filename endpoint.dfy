/**
 * Composition of the broker connection string from the configured broker
 * URL and virtual host (`vhostHandler` in the adapter).
 */
module Endpoint {
  import opened AdapterTypes

  predicate EndsWithSlash(s: string) {
    |s| > 0 && s[|s| - 1] == '/'
  }

  predicate StartsWithSlash(s: string) {
    |s| > 0 && s[0] == '/'
  }

  /** Both parts are present and neither supplies the slash between them. */
  predicate NeedsSeparator(broker: string, vhost: string) {
    |vhost| > 0 && |broker| > 0 && !EndsWithSlash(broker) && !StartsWithSlash(vhost)
  }

  /**
   * Reference description of a composed endpoint: it starts with the broker,
   * ends with the vhost, and between them holds one '/' exactly when
   * neither side supplies one, and nothing at all otherwise.
   */
  ghost predicate IsComposition(r: string, broker: string, vhost: string) {
    && |r| == |broker| + |vhost| + (if NeedsSeparator(broker, vhost) then 1 else 0)
    && r[..|broker|] == broker
    && r[|r| - |vhost|..] == vhost
    && (NeedsSeparator(broker, vhost) ==> r[|broker|] == '/')
  }

  /** The connection string dialled for `broker` and `vhost`. */
  function VhostHandler(broker: string, vhost: string): (r: string)
    ensures IsComposition(r, broker, vhost)
    ensures |vhost| == 0 ==> r == broker
    ensures |broker| == 0 ==> r == vhost
  {
    if NeedsSeparator(broker, vhost) then broker + "/" + vhost else broker + vhost
  }

  /** The address `CreateConn` dials: the configured broker URL joined with the configured vhost. */
  function DialTarget(cfg: Config): (r: string)
    ensures IsComposition(r, cfg.rabbitUrl, cfg.vhost)
    ensures |cfg.vhost| == 0 ==> r == cfg.rabbitUrl
  {
    VhostHandler(cfg.rabbitUrl, cfg.vhost)
  }

  /** The reference description admits one string only, so it pins VhostHandler down. */
  lemma CompositionUnique(r1: string, r2: string, broker: string, vhost: string)
    requires IsComposition(r1, broker, vhost) && IsComposition(r2, broker, vhost)
    ensures r1 == r2
  {
    var n := |broker|;
    var gap := |r1| - |broker| - |vhost|;
    forall k | 0 <= k < |r1|
      ensures r1[k] == r2[k]
    {
      if k < n {
        assert r1[k] == r1[..n][k] && r2[k] == r2[..n][k];
      } else if k < n + gap {
        assert r1[k] == '/' && r2[k] == '/';
      } else {
        assert r1[k] == r1[|r1| - |vhost|..][k - n - gap];
        assert r2[k] == r2[|r2| - |vhost|..][k - n - gap];
      }
    }
  }

  /** Any string meeting the reference description is what VhostHandler returns. */
  lemma VhostHandlerIsTheComposition(r: string, broker: string, vhost: string)
    ensures IsComposition(r, broker, vhost) <==> r == VhostHandler(broker, vhost)
  {
    if IsComposition(r, broker, vhost) {
      CompositionUnique(r, VhostHandler(broker, vhost), broker, vhost);
    }
  }

  /** When both parts are present, a '/' always stands at the joint between them. */
  lemma SlashAtJoint(broker: string, vhost: string)
    requires |broker| > 0 && |vhost| > 0
    ensures var r := VhostHandler(broker, vhost);
      r[|broker| - 1] == '/' || r[|broker|] == '/'
  {
    var r := VhostHandler(broker, vhost);
    if !NeedsSeparator(broker, vhost) {
      assert r[|broker| - 1] == broker[|broker| - 1];
      assert r[|broker|] == vhost[0];
    }
  }

  /** Slashes supplied by both sides are kept: no de-duplication happens. */
  lemma NoDeduplication(broker: string, vhost: string)
    requires EndsWithSlash(broker) && StartsWithSlash(vhost)
    ensures VhostHandler(broker, vhost) == broker + vhost
    ensures VhostHandler(broker, vhost)[|broker| - 1 .. |broker| + 1] == "//"
  {
    var r := VhostHandler(broker, vhost);
    assert r[|broker| - 1] == broker[|broker| - 1];
    assert r[|broker|] == vhost[0];
  }

  /** Behind a broker without a trailing slash, a leading slash on the vhost makes no difference. */
  lemma LeadingSlashOptional(broker: string, vhost: string)
    requires |broker| > 0 && !EndsWithSlash(broker)
    requires |vhost| > 0 && !StartsWithSlash(vhost)
    ensures VhostHandler(broker, "/" + vhost) == VhostHandler(broker, vhost)
  {
    assert ("/" + vhost)[0] == '/';
    assert broker + ("/" + vhost) == broker + "/" + vhost;
  }

  /** The documented examples, and the two cases the code handles without a separator. */
  lemma Examples()
    ensures VhostHandler("host", "") == "host"
    ensures VhostHandler("host", "v") == "host/v"
    ensures VhostHandler("host/", "v") == "host/v"
    ensures VhostHandler("host", "/v") == "host/v"
    ensures VhostHandler("host/", "/v") == "host//v"
    ensures VhostHandler("", "v") == "v"
  {
  }
}
