/** How a name in configuration reduces to the service it names. */
module HostNames {
  import opened Text
  import opened TextProperties
  import opened Hosts

  /** A service name as somebody declares it: not blank, without white space at its ends, without dot or colon. */
  predicate IsLabel(service: string) {
    service != "" && Tight(service) && '.' !in service && ':' !in service
  }

  /** What may follow a service name inside a cluster: nothing, a domain, a port, or a domain and a port. */
  predicate IsSuffix(rest: string) {
    rest == "" || rest[0] == '.' || rest[0] == ':'
  }

  /** The normal form of a name does not depend on letter case. */
  lemma NormalHasNoCase(a: string, b: string)
    requires ToLower(a) == ToLower(b)
    ensures Normal(a) == Normal(b)
  {
    TrimAndCaseCommute(a);
    TrimAndCaseCommute(b);
  }

  /** Normal forms are normal, and neither surrounding white space nor letter case matters to them. */
  lemma NormalIsNormal(name: string)
    ensures Normal(Normal(name)) == Normal(name)
  {
    var i, j := TrimSpaceExactly(name);
    var tight := TrimSpace(name);
    if tight != "" {
      SpaceHasNoCase(tight[0]);
      SpaceHasNoCase(tight[|tight| - 1]);
    }
    TightIsTrimmed(ToLower(tight));
    CaseFolds(tight);
  }

  lemma NormalOfName(service: string, rest: string)
    requires IsLabel(service) && IsSuffix(rest)
    ensures Normal(service + rest) == ToLower(service) + ToLower(TrimRight(rest))
    ensures TrimRight(rest) == "" <==> rest == ""
    ensures rest != "" ==> TrimRight(rest)[0] == rest[0]
  {
    assert (service + rest)[0] == service[0];
    TrimRightStops(service, rest);
    if rest != "" {
      TrimRightStops(rest[..1], rest[1..]);
      assert rest == rest[..1] + rest[1..];
    }
    var tail := TrimRight(rest);
    assert ToLower(service + tail) == ToLower(service) + ToLower(tail);
  }

  lemma CaseKeepsPunctuation(service: string)
    requires IsLabel(service)
    ensures '.' !in ToLower(service) && ':' !in ToLower(service)
  {
  }

  /** The label of a name is what stands before its first dot or colon. */
  lemma LabelOfPieces(name: string, service: string, tail: string)
    requires name == service + tail && service != "" && '.' !in service && ':' !in service && IsSuffix(tail) && Normal(name) == name
    ensures ServiceLabel(name) == service
  {
    hide Normal;
    var colon := IndexOf(name, ':');
    assert forall i :: 0 <= i < |service| ==> name[i] == service[i];
    assert colon >= |service|;
    var noPort := if 0 < colon < |name| then name[..colon] else name;
    assert noPort[..|service|] == service;
    assert forall i :: 0 <= i < |service| ==> noPort[i] == service[i];
    var dot := IndexOf(noPort, '.');
    assert dot >= |service|;
    if tail == "" {
      assert name == service;
    } else if tail[0] == ':' {
      assert name[|service|] == ':';
      assert colon == |service|;
    } else {
      assert name[|service|] == '.' && colon != |service|;
      assert noPort[|service|] == '.';
    }
  }

  lemma LabelOfNormal(host: string)
    ensures ServiceLabel(host) == ServiceLabel(Normal(host))
  {
    NormalIsNormal(host);
  }

  /**
   * A service name alone, or with any domain after it, any port after it, or both, in any letter case, has the
   * normal form of the service name for its label.
   */
  lemma LabelOfHost(host: string, service: string, rest: string)
    requires IsLabel(service) && IsSuffix(rest) && ToLower(host) == ToLower(service + rest)
    ensures ServiceLabel(host) == Normal(service)
  {
    hide ServiceLabel;
    NormalHasNoCase(host, service + rest);
    NormalOfName(service, rest);
    NormalOfName(service, "");
    assert service + "" == service && ToLower(TrimRight("")) == "";
    CaseKeepsPunctuation(service);
    LabelOfNormal(host);
    NormalIsNormal(host);
    var tail := ToLower(TrimRight(rest));
    assert tail == "" || tail[0] == LowerChar(rest[0]);
    LabelOfPieces(Normal(host), ToLower(service), tail);
  }
}
