/** Hostnames as configuration writes them. */
module Hosts {
  import opened Text

  /** A name found in configuration: as written, where it was found and under which variable and rule. */
  datatype HostFinding = HostFinding(host: string, envVar: string, evidencePath: string, ruleId: string,
                                     confidence: real, fromTestFile: bool)

  datatype HostsFact = HostsFact(declaredServices: seq<string>, declaredHosts: seq<string>, consumed: seq<HostFinding>)

  const COMPOSE_DEPENDS_ON := "consume.compose_depends_on"
  const K8S_SERVICE_HOST := "consume.k8s_service_host"
  const INGRESS_HOST := "consume.ingress_host"
  const DECLARED_HOST := 0.85
  const COMPOSE_TOPOLOGY := 0.75

  const PLACEHOLDER_HOSTS := {
    "localhost", "127.0.0.1", "0.0.0.0", "::1", "host.docker.internal", "example.com", "example.org", "example.net",
    "test.local", "changeme", "todo", "none"
  }

  const PLACEHOLDER_PREFIXES := ["changeme", "your-", "your_", "my-", "my_", "<", "${", "{{", "$(", "%"]

  /** Lower case, without surrounding space: the form names are compared in. */
  function Normal(name: string): string {
    ToLower(TrimSpace(name))
  }

  /** A name kept out of every index: one of the known placeholders, or a template. */
  predicate IsPlaceholderHost(host: string) {
    var name := Normal(host);
    || name == "" || name in PLACEHOLDER_HOSTS
    || (exists i :: 0 <= i < |PLACEHOLDER_PREFIXES| && HasPrefix(name, PLACEHOLDER_PREFIXES[i]))
    || (exists i :: 0 <= i < |name| && name[i] in "${}<>")
  }

  /** The part of a name before its port and first dot. */
  function ServiceLabel(host: string): string {
    var name := Normal(host);
    var colon := IndexOf(name, ':');
    var noPort := if 0 < colon < |name| then name[..colon] else name;
    var dot := IndexOf(noPort, '.');
    if 0 < dot < |noPort| then noPort[..dot] else noPort
  }
}
